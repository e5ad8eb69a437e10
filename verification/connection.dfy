/**
 * The connection logic of `ConnectedDevice` (core/connected_device.py)
 * without its threads.
 *
 * The listener and commander threads are replaced by their per-iteration
 * steps, the input queue by a sequence, and the hardware by inputs: the
 * bytes a read returned, the outcomes of the blocking waits on the queue.
 * Callbacks are opaque identities; invoking one is recorded in `fired`,
 * and a call of the link-lost or link-established callback in `linkCalls`.
 */
module Connection {
  import opened Wrappers
  import opened Bits
  import opened Frame
  import opened Device
  import opened Text

  /** The identity of a Python callable registered by the user. */
  type Callback = int

  /** A callback invocation the listener made: which callback, with which frame. */
  datatype Notification = Notification(callback: Callback, frame: Request)

  /** Which link callback the listener called: `deconnection_callback` or `reconnection_callback`. */
  datatype LinkCall = LinkLost | LinkEstablished

  /**
   * The state of a `ConnectedDevice` the model keeps: the directory, the link
   * flag, the software id, the report-length settings, the notification
   * registry, the input queue, the notifications delivered so far, whether
   * each link callback is set (not None), and the link callbacks called so far.
   */
  datatype Conn = Conn(
    info: DeviceInfo,
    connected: bool,
    swId: int,
    isUsingVeryLong: bool,
    responseLength: int,
    registry: map<string, Callback>,
    inbound: seq<Request>,
    fired: seq<Notification>,
    onLinkLost: bool,
    onLinkEstablished: bool,
    linkCalls: seq<LinkCall>)

  const DefaultResponseLength := 20
  const DefaultSoftwareId := 0x0F
  const LinkChangeFeature := 0x41
  const ErrorFeature := 0xFF

  /** The constructor, once its threads are set aside. */
  function NewConn(info: DeviceInfo, swId: int): (c: Conn)
    ensures c.connected && !c.isUsingVeryLong && c.responseLength == 20
    ensures c.registry == map[] && c.inbound == [] && c.fired == []
    ensures c.info == info && c.swId == swId
    ensures !c.onLinkLost && !c.onLinkEstablished && c.linkCalls == []
  {
    Conn(info, true, swId, false, DefaultResponseLength, map[], [], [], false, false, [])
  }

  /** `disconnect`: a connected device forgets its registry and report length. */
  function Disconnect(c: Conn): (c': Conn)
    ensures c.connected ==> c'.registry == map[] && c'.responseLength == 20
    ensures !c.connected ==> c' == c
    ensures c' == c.(registry := c'.registry, responseLength := c'.responseLength)
  {
    if c.connected then c.(responseLength := DefaultResponseLength, registry := map[]) else c
  }

  // ------------------------------------------------------ response matching

  /**
   * `__isTheResponse`. A device error frame carries 0xFF as its feature and
   * the failed request's feature index in the byte that would otherwise
   * hold function and software id; otherwise feature, function and software
   * id must all agree. The device index is never compared.
   */
  predicate IsTheResponse(req: Option<Request>, res: Option<Request>)
  {
    && req.Some? && res.Some?
    && (|| (res.value.feature == ErrorFeature
            && req.value.feature == BitOr(ShiftLeft(res.value.func, 4), res.value.swId))
        || (req.value.feature == res.value.feature
            && req.value.func == res.value.func
            && req.value.swId == res.value.swId))
  }

  /**
   * For a response whose software id fits its nibble, matching in plain
   * arithmetic: both directions of the rule.
   */
  lemma {:induction false} MatchRule(req: Request, res: Request)
    requires 0 <= res.swId < 16
    ensures IsTheResponse(Some(req), Some(res)) <==>
      (res.feature == 0xFF && req.feature == 16 * res.func + res.swId)
      || (req.feature == res.feature && req.func == res.func && req.swId == res.swId)
  {
    OrOfDisjoint(res.func, res.swId, 4);
  }

  /** Nothing matches a missing request or a missing response. */
  lemma {:induction false} NoneNeverMatches(r: Option<Request>)
    ensures !IsTheResponse(None, r) && !IsTheResponse(r, None)
  {
  }

  /** Matching looks at neither the device index nor the params. */
  lemma {:induction false} MatchIgnoresDevIdxAndParams(req: Request, res: Request, devIdx: int, params: seq<int>)
    ensures IsTheResponse(Some(req), Some(res.(devIdx := devIdx, params := params)))
        == IsTheResponse(Some(req), Some(res))
  {
  }

  /**
   * A device error frame, as the listener decodes it from the wire, matches
   * the request whose feature index it echoes in byte 3.
   */
  lemma {:induction false} ErrorFrameMatches(req: Request, l: seq<int>)
    requires |l| >= 4 && TypeOfTag(l[0]).Some?
    requires l[2] == 0xFF && l[3] == req.feature && IsByte(l[3])
    ensures FromList(l).Ok? && IsTheResponse(Some(req), Some(FromList(l).value))
  {
    NibbleSplit(l[3]);
  }

  // ------------------------------------------------------------- correlator

  const MaxAttempts := 10

  /** The outcome of the i-th blocking wait: a frame, or None for a timeout. */
  function WaitAt(waits: seq<Option<Request>>, i: nat): Option<Request>
  {
    if i < |waits| then waits[i] else None
  }

  /**
   * `send_req_and_wait_response`. Frames queued before sending are drained
   * and dropped. The first wait decides if it times out or matches; after a
   * miss up to ten more waits follow, the first match is returned (and the
   * queue cleared), and after ten misses the last outcome is returned even
   * though it does not match. `waits` lists the outcomes of the successive
   * waits; `used` counts the waits made.
   */
  method SendAndWait(inbound: seq<Request>, req: Request, waits: seq<Option<Request>>)
    returns (res: Option<Request>, drained: seq<Request>, used: nat, cleared: bool)
    ensures drained == inbound
    ensures 1 <= used <= MaxAttempts + 1
    ensures res == WaitAt(waits, used - 1)
    ensures used == 1 <==> WaitAt(waits, 0).None? || IsTheResponse(Some(req), WaitAt(waits, 0))
    ensures forall i :: 1 <= i < used - 1 ==> !IsTheResponse(Some(req), WaitAt(waits, i))
    ensures 1 < used <= MaxAttempts ==> IsTheResponse(Some(req), res)
    ensures cleared <==> used > 1 && IsTheResponse(Some(req), res)
  {
    drained := [];
    var q := inbound;
    while q != []
      invariant drained + q == inbound
      decreases |q|
    {
      drained := drained + [q[0]];
      q := q[1..];
    }
    used := 1;
    cleared := false;
    res := WaitAt(waits, 0);
    if res.None? || IsTheResponse(Some(req), res) {
      return;
    }
    var attempt := 0;
    while attempt < MaxAttempts
      invariant 0 <= attempt <= MaxAttempts
      invariant used == attempt + 1
      invariant res == WaitAt(waits, attempt)
      invariant WaitAt(waits, 0).Some? && !IsTheResponse(Some(req), WaitAt(waits, 0))
      invariant forall i :: 1 <= i <= attempt ==> !IsTheResponse(Some(req), WaitAt(waits, i))
      decreases MaxAttempts - attempt
    {
      attempt := attempt + 1;
      res := WaitAt(waits, attempt);
      used := used + 1;
      if IsTheResponse(Some(req), res) {
        cleared := true;
        return;
      }
    }
  }

  // -------------------------------------------------- notification registry

  /** The registry key `str(f_idx) + ":" + str(notif_id)`. */
  function NotifKey(fIdx: int, notifId: int): (k: string)
    ensures |k| == |IntToString(fIdx)| + 1 + |IntToString(notifId)|
    ensures k[|IntToString(fIdx)|] == ':'
  {
    IntToString(fIdx) + ":" + IntToString(notifId)
  }

  /** Distinct (feature index, notification id) pairs never share a key. */
  lemma {:induction false} NotifKeyInjective(a: int, b: int, c: int, d: int)
    requires NotifKey(a, b) == NotifKey(c, d)
    ensures a == c && b == d
  {
    var k := NotifKey(a, b);
    var sa := IntToString(a);
    var sc := IntToString(c);
    if |sa| < |sc| {
      assert false;
    } else if |sc| < |sa| {
      assert false;
    }
    assert sa == k[..|sa|] == sc;
    IntToStringInjective(a, c);
    assert IntToString(b) == k[|sa| + 1..] == IntToString(d);
    IntToStringInjective(b, d);
  }

  /**
   * `unregister_notif`: removes the key of the feature's current index, if
   * the feature is enumerated; otherwise nothing changes.
   */
  function UnregisterNotif(c: Conn, featureId: int, notifId: int): (c': Conn)
    ensures !IsEnumerated(c.info, featureId) ==> c' == c
    ensures IsEnumerated(c.info, featureId) ==>
      c'.registry == c.registry - {NotifKey(c.info.features[featureId].idx, notifId)}
    ensures c' == c.(registry := c'.registry)
  {
    if !IsEnumerated(c.info, featureId) then c
    else
      var key := NotifKey(c.info.features[featureId].idx, notifId);
      c.(registry := c.registry - {key})
  }

  /**
   * `register_notif`: refuses an unenumerated feature; otherwise any earlier
   * callback under the same key is replaced.
   */
  function RegisterNotif(c: Conn, featureId: int, notifId: int, callback: Callback): (c': Conn)
    ensures !IsEnumerated(c.info, featureId) ==> c' == c
    ensures IsEnumerated(c.info, featureId) ==>
      c'.registry == c.registry[NotifKey(c.info.features[featureId].idx, notifId) := callback]
    ensures c' == c.(registry := c'.registry)
  {
    if !IsEnumerated(c.info, featureId) then c
    else
      var c1 := UnregisterNotif(c, featureId, notifId);
      var key := NotifKey(c.info.features[featureId].idx, notifId);
      c1.(registry := c1.registry[key := callback])
  }

  /**
   * `__processNotif`: the callback that consumes the frame, if any. A frame
   * is a notification when its software id is 0 and its function fits a
   * nibble, and it is consumed when a callback is registered for its key.
   */
  function NotifTarget(c: Conn, req: Request): (cb: Option<Callback>)
    ensures cb.Some? <==>
      req.swId == 0 && req.func <= 0x0F && NotifKey(req.feature, req.func) in c.registry
    ensures cb.Some? ==> cb.value == c.registry[NotifKey(req.feature, req.func)]
  {
    var key := NotifKey(req.feature, req.func);
    if req.swId == 0 && req.func <= 0x0F && key in c.registry then Some(c.registry[key]) else None
  }

  /**
   * A registered callback receives exactly the frames of its feature's index
   * and notification id (with software id 0), and no others.
   */
  lemma {:induction false} RegisteredCallbackReceives(c: Conn, featureId: int, notifId: int, cb: Callback, req: Request)
    requires IsEnumerated(c.info, featureId)
    requires req.swId == 0 && req.func <= 0x0F
    ensures var c' := RegisterNotif(c, featureId, notifId, cb);
      (req.feature == c.info.features[featureId].idx && req.func == notifId)
        ==> NotifTarget(c', req) == Some(cb)
  {
  }

  /** After unregistering, the frames of that key are no longer consumed. */
  lemma {:induction false} UnregisteredNotConsumed(c: Conn, featureId: int, notifId: int, req: Request)
    requires IsEnumerated(c.info, featureId)
    requires req.feature == c.info.features[featureId].idx && req.func == notifId
    ensures NotifTarget(UnregisterNotif(c, featureId, notifId), req).None?
  {
  }

  /** Registering for one key leaves the delivery of every other key alone. */
  lemma {:induction false} RegisterIsLocal(c: Conn, featureId: int, notifId: int, cb: Callback, req: Request)
    requires IsEnumerated(c.info, featureId)
    requires req.feature != c.info.features[featureId].idx || req.func != notifId
    ensures NotifTarget(RegisterNotif(c, featureId, notifId, cb), req) == NotifTarget(c, req)
  {
    var key := NotifKey(c.info.features[featureId].idx, notifId);
    if NotifKey(req.feature, req.func) == key {
      NotifKeyInjective(req.feature, req.func, c.info.features[featureId].idx, notifId);
      assert false;
    }
  }

  // --------------------------------------------------------------- listener

  /**
   * One read on the short endpoint. A frame of feature 0x41 addressed to the
   * device's sub-index reports the link: bit 6 of its first param set means
   * lost, clear means established, and the matching link callback is called
   * when it is set. Short frames are never queued.
   */
  function OnShortRead(c: Conn, l: seq<int>): (r: Result<Conn>)
    ensures r.Ok? ==> r.value == c.(connected := r.value.connected, linkCalls := r.value.linkCalls)
    ensures r.Ok? ==>
      (r.value.linkCalls == c.linkCalls
       || r.value.linkCalls == c.linkCalls + [if r.value.connected then LinkEstablished else LinkLost])
    ensures l == [] ==> r == Ok(c)
    ensures r.Raised? ==> r.exc == IndexError
  {
    if l == [] then Ok(c)
    else
      match FromList(l)
      case Raised(e) => Raised(e)
      case Ok(req) =>
        if req.feature == LinkChangeFeature && req.devIdx == c.info.subIdx then
          if |req.params| == 0 then Raised(IndexError)
          else if BitAt(req.params[0], 6) == 1 then
            Ok(c.(connected := false, linkCalls := c.linkCalls + (if c.onLinkLost then [LinkLost] else [])))
          else
            Ok(c.(connected := true, linkCalls := c.linkCalls + (if c.onLinkEstablished then [LinkEstablished] else [])))
        else Ok(c)
  }

  /**
   * Link status from a short report as the device sends it: the link flag
   * becomes "bit 6 of byte 4 is clear" when the frame is a 0x41 report for
   * this device, and the callback for the new state is called exactly when
   * it is set; any other frame leaves the connection as it was.
   */
  lemma {:induction false} LinkStatus(c: Conn, l: seq<int>)
    requires |l| >= 5 && TypeOfTag(l[0]).Some?
    ensures OnShortRead(c, l).Ok?
    ensures l[2] == 0x41 && l[1] == c.info.subIdx ==>
      var c' := OnShortRead(c, l).value;
      (c'.connected <==> (l[4] / 64) % 2 == 0)
      && (c'.linkCalls == c.linkCalls + [LinkLost] <==> !c'.connected && c.onLinkLost)
      && (c'.linkCalls == c.linkCalls + [LinkEstablished] <==> c'.connected && c.onLinkEstablished)
      && (c'.linkCalls == c.linkCalls <==> (if c'.connected then !c.onLinkEstablished else !c.onLinkLost))
    ensures !(l[2] == 0x41 && l[1] == c.info.subIdx) ==> OnShortRead(c, l) == Ok(c)
  {
    var req := FromList(l).value;
    assert req.params[0] == l[4];
    assert c.linkCalls + [LinkLost] != c.linkCalls + [LinkEstablished] by {
      assert (c.linkCalls + [LinkLost])[|c.linkCalls|] == LinkLost;
    }
    assert c.linkCalls + [LinkLost] != c.linkCalls && c.linkCalls + [LinkEstablished] != c.linkCalls by {
      assert |c.linkCalls + [LinkLost]| != |c.linkCalls|;
    }
  }

  /**
   * One read on the long or extra-long endpoint: a decoded frame is either
   * delivered to its notification callback or appended to the input queue.
   */
  function OnLongRead(c: Conn, l: seq<int>): (r: Result<Conn>)
    ensures l == [] ==> r == Ok(c)
    ensures r.Raised? ==> r.exc == IndexError && FromList(l).Raised?
    ensures r.Ok? ==> r.value.registry == c.registry && r.value.info == c.info
    ensures r.Ok? ==> |r.value.inbound| + |r.value.fired| <= |c.inbound| + |c.fired| + 1
    ensures l != [] && FromList(l).Ok? ==>
      (r.Ok? &&
       var req := FromList(l).value;
       match NotifTarget(c, req)
       case Some(cb) => r.value == c.(fired := c.fired + [Notification(cb, req)])
       case None => r.value == c.(inbound := c.inbound + [req]))
  {
    if l == [] then Ok(c)
    else
      match FromList(l)
      case Raised(e) => Raised(e)
      case Ok(req) =>
        match NotifTarget(c, req)
        case Some(cb) => Ok(c.(fired := c.fired + [Notification(cb, req)]))
        case None => Ok(c.(inbound := c.inbound + [req]))
  }

  /**
   * One iteration of the listener loop: the short endpoint (absent on some
   * transports), the long one, then the extra-long one (if present). An
   * exception ends the thread, so the later reads do not happen.
   */
  function ListenerStep(c: Conn, shortRead: Option<seq<int>>, longRead: seq<int>,
                        extraLongRead: Option<seq<int>>): (r: Result<Conn>)
    ensures r.Ok? ==> r.value.registry == c.registry && r.value.info == c.info
    ensures r.Ok? ==> |r.value.inbound| + |r.value.fired| <= |c.inbound| + |c.fired| + 2
  {
    var c1 := if shortRead.Some? then OnShortRead(c, shortRead.value) else Ok(c);
    if c1.Raised? then c1
    else
      var c2 := OnLongRead(c1.value, longRead);
      if c2.Raised? || extraLongRead.None? then c2
      else OnLongRead(c2.value, extraLongRead.value)
  }

  /**
   * Every non-empty decodable frame read on the long endpoint ends up in
   * exactly one place: the input queue or a callback, never both.
   */
  lemma {:induction false} FrameQueuedOrDelivered(c: Conn, l: seq<int>)
    requires l != [] && FromList(l).Ok?
    ensures var c' := OnLongRead(c, l).value;
      (|c'.inbound| == |c.inbound| + 1 && c'.fired == c.fired
       && c'.inbound[|c.inbound|] == FromList(l).value)
      != (|c'.fired| == |c.fired| + 1 && c'.inbound == c.inbound
          && c'.fired[|c.fired|].frame == FromList(l).value)
  {
  }

  // -------------------------------------------------------------- commander

  /** The type a request is written as: short ones become long, long ones very long if enabled. */
  function PromotedType(t: ReqType, veryLong: bool): (t': ReqType)
    ensures t' != Short
    ensures t' == VeryLong <==> t == VeryLong || veryLong
  {
    match t
    case Short => if veryLong then VeryLong else Long
    case Long => if veryLong then VeryLong else Long
    case VeryLong => VeryLong
  }

  /**
   * One iteration of the commander loop: the frame written to the long
   * endpoint for a dequeued request. A short frame is re-tagged 0x11 and
   * padded to 20 bytes; a long one is re-tagged 0x12 and padded to 64 when
   * very-long reports are in use. Every typed request is written; an untyped
   * one raises in `build_request`.
   */
  function CommanderStep(c: Conn, req: Request): (out: Result<seq<int>>)
    ensures out.Ok? <==> req.reqType.Some?
    ensures out.Raised? ==> out.exc == AttributeError
    ensures out.Ok? ==>
      var t' := PromotedType(req.reqType.value, c.isUsingVeryLong);
      && |out.value| >= 4 + |req.params|
      && (WellFormed(req) || req.reqType.value == Short ==> |out.value| >= TypeLength(t'))
      && out.value[0] == Tag(t')
      && out.value[1] == req.devIdx && out.value[2] == req.feature
      && out.value[4..4 + |req.params|] == req.params
      && (forall i :: 4 + |req.params| <= i < |out.value| ==> out.value[i] == 0)
  {
    match BuildRequest(req)
    case Raised(e) => Raised(e)
    case Ok(l) =>
      var t := req.reqType.value;
      var l1 := if t == Short then PadTo(l[0 := LongTag], 20) else l;
      var t1 := if t == Short then Long else t;
      var l2 := if t1 == Long && c.isUsingVeryLong then PadTo(l1[0 := VeryLongTag], 64) else l1;
      Ok(l2)
  }

  /**
   * What the device receives decodes to the request itself, with its type
   * promoted and its params zero-padded to the promoted capacity.
   */
  lemma {:induction false} CommanderRoundTrip(c: Conn, req: Request)
    requires req.reqType.Some? && WellFormed(req) && 0 <= req.swId < 16
    ensures CommanderStep(c, req).Ok?
    ensures var t' := PromotedType(req.reqType.value, c.isUsingVeryLong);
      FromList(CommanderStep(c, req).value)
        == Ok(req.(reqType := Some(t'), params := PadTo(req.params, Capacity(t'))))
  {
    var t' := PromotedType(req.reqType.value, c.isUsingVeryLong);
    var w := CommanderStep(c, req).value;
    var l := BuildRequest(req).value;
    assert w[3] == l[3] == 16 * req.func + req.swId;
    SplitOfDisjoint(req.func, req.swId, 4);
    var p := PadTo(req.params, Capacity(t'));
    assert PadTo(w, TypeLength(t')) == w;
    assert |w| == 4 + |p|;
    forall i | 0 <= i < |p|
      ensures w[4 + i] == p[i]
    {
      if i < |req.params| {
        assert w[4..4 + |req.params|][i] == req.params[i];
      }
    }
    assert w[4..] == p;
    assert (16 * req.func + req.swId) / 16 == req.func && (16 * req.func + req.swId) % 16 == req.swId by {
      DivModUnique(16 * req.func + req.swId, 16, req.func, req.swId);
    }
  }
}
