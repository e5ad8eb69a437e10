/**
 * The generic feature request (`Feature.construct_and_process_request` in
 * features/feature.py) and the feature enumeration of `ConnectedDevice`
 * (`enumerate_feature`, `enumerate_all`, `send_custom_request`,
 * `__get_response_length` in core/connected_device.py).
 *
 * `send_req_and_wait_response` is modelled by `Connection.SendAndWait`; here
 * its results are inputs. A `Link` holds the results the device will produce,
 * one per exchange (a timeout once the script runs out), and the log of
 * requests sent.
 */
module FeatureCall {
  import opened Wrappers
  import opened Bits
  import opened Frame
  import opened Device
  import opened Connection
  import Root
  import FeatureSet

  datatype Link = Link(replies: seq<Option<Request>>, sent: seq<Request>)

  datatype Exchange = Exchange(res: Option<Request>, link: Link)

  /** A device-side exchange: the request is logged and the next result consumed. */
  function Send(link: Link, req: Request): (e: Exchange)
    ensures e.link.sent == link.sent + [req]
    ensures link.replies != [] ==> e.res == link.replies[0] && e.link.replies == link.replies[1..]
    ensures link.replies == [] ==> e.res.None? && e.link.replies == []
  {
    if link.replies == [] then Exchange(None, link.(sent := link.sent + [req]))
    else Exchange(link.replies[0], Link(link.replies[1..], link.sent + [req]))
  }

  /** The state an operation leaves behind, and its outcome. */
  datatype Step<T> = Step(conn: Conn, link: Link, out: Result<T>)

  /**
   * The report type chosen from the number of params: very long above 20,
   * long above 3, short otherwise.
   */
  function RequestTypeFor(n: nat): (t: ReqType)
    ensures t == VeryLong <==> n > 20
    ensures t == Short <==> n <= 3
  {
    if n > 20 then VeryLong else if n > 3 then Long else Short
  }

  /**
   * 17 to 20 params are typed LONG although a long report carries only 16:
   * the encoded frame is longer than a long report.
   */
  lemma {:induction false} SeventeenToTwentyParamsOverflowLong(params: seq<int>)
    requires 16 < |params| <= 20
    ensures RequestTypeFor(|params|) == Long
    ensures var r := FromFields(0, 0, 0, DefaultSwId, params, TypeName(Long));
      r.Ok? && BuildRequest(r.value).Ok? && |BuildRequest(r.value).value| > TypeLength(Long)
  {
  }

  /** Up to 16 params and from 21 to 60, the chosen report holds them exactly. */
  lemma {:induction false} ChosenTypeFits(params: seq<int>)
    requires |params| <= 16 || 20 < |params| <= 60
    ensures var t := RequestTypeFor(|params|);
      var r := FromFields(0, 0, 0, DefaultSwId, params, TypeName(t));
      r.Ok? && BuildRequest(r.value).Ok? && |BuildRequest(r.value).value| == TypeLength(t)
  {
  }

  /** The request the library sends for a feature index, function and params. */
  function MakeRequest(devIdx: int, featureIdx: int, func: int, params: seq<int>): (req: Request)
    ensures req.reqType == Some(RequestTypeFor(|params|))
    ensures req.devIdx == devIdx && req.feature == featureIdx && req.func == func
    ensures req.swId == DefaultSwId
    ensures req.params == PadTo(params, Capacity(RequestTypeFor(|params|)))
  {
    FromFields(devIdx, featureIdx, func, DefaultSwId, params, TypeName(RequestTypeFor(|params|))).value
  }

  /**
   * Response validation: a device error frame (feature 0xFF) is dropped, and
   * anything else must carry the device index, feature index and the
   * connection's software id. The function number is not checked.
   */
  function Validate(res: Option<Request>, devIdx: int, featureIdx: int, swId: int): (v: Option<Request>)
    ensures v.Some? <==>
      res.Some? && res.value.feature != 0xFF
      && res.value.devIdx == devIdx && res.value.feature == featureIdx && res.value.swId == swId
    ensures v.Some? ==> v == res
  {
    match res
    case None => None
    case Some(r) =>
      if r.feature == ErrorFeature then None
      else if r.devIdx == devIdx && r.feature == featureIdx && r.swId == swId then res
      else None
  }

  /** The part of the request after the feature index is known: build, send, validate. */
  function ProcessAt(c: Conn, link: Link, featureIdx: int, func: int, params: seq<int>): (s: Step<Option<Request>>)
    ensures s.conn == c && s.out.Ok?
    ensures s.link == Send(link, MakeRequest(c.info.subIdx, featureIdx, func, params)).link
    ensures s.out.value == Validate(Send(link, MakeRequest(c.info.subIdx, featureIdx, func, params)).res,
                                    c.info.subIdx, featureIdx, c.swId)
  {
    var e := Send(link, MakeRequest(c.info.subIdx, featureIdx, func, params));
    Step(c, e.link, Ok(Validate(e.res, c.info.subIdx, featureIdx, c.swId)))
  }

  /**
   * `X0000.get_feature`: the root feature is always in the directory, so its
   * own request needs no lookup.
   */
  function GetFeature(c: Conn, link: Link, featureId: int): (s: Step<FeatureInfo>)
    requires Valid(c.info)
    ensures s.conn == c
    ensures !c.connected ==> s == Step(c, link, Ok(FeatureInfo(featureId, 0, false, false, 0)))
    ensures s.out.Ok? ==> s.out.value.id == featureId
  {
    if !c.connected then Step(c, link, Ok(FeatureInfo(featureId, 0, false, false, 0)))
    else
      var p := ProcessAt(c, link, c.info.features[RootFeatureId].idx, Root.GetFeatureFunction,
                         Root.GetFeatureParams(featureId));
      Step(c, p.link, Root.ParseFeature(featureId, p.out.value))
  }

  /**
   * `enumerate_feature`: false when disconnected; true without a request
   * when the feature is known; otherwise the root lookup decides, and index 0
   * means "not found" and adds nothing.
   */
  function EnumerateFeature(c: Conn, link: Link, featureId: int): (s: Step<bool>)
    requires Valid(c.info)
    ensures Valid(s.conn.info)
    ensures s.conn == c.(info := s.conn.info)
    ensures !c.connected ==> s == Step(c, link, Ok(false))
    ensures c.connected && IsEnumerated(c.info, featureId) ==> s == Step(c, link, Ok(true))
    ensures s.out == Ok(true) <==> c.connected && IsEnumerated(s.conn.info, featureId)
    ensures s.out != Ok(true) ==> s.conn == c
    ensures s.out == Ok(true) && !IsEnumerated(c.info, featureId) ==>
      s.conn.info == AddFeature(c.info, s.conn.info.features[featureId])
      && s.conn.info.features[featureId].idx != 0
  {
    if !c.connected then Step(c, link, Ok(false))
    else if IsEnumerated(c.info, featureId) then Step(c, link, Ok(true))
    else
      var g := GetFeature(c, link, featureId);
      match g.out
      case Raised(e) => Step(c, g.link, Raised(e))
      case Ok(f) =>
        if f.idx == 0 then Step(c, g.link, Ok(false))
        else Step(c.(info := AddFeature(c.info, f)), g.link, Ok(true))
  }

  /**
   * `construct_and_process_request`: None without sending when disconnected
   * or when the feature cannot be enumerated; otherwise the request goes to
   * the feature's runtime index, addressed to the device's sub-index.
   */
  function ConstructAndProcess(c: Conn, link: Link, featureId: int, func: int, params: seq<int>)
    : (s: Step<Option<Request>>)
    requires Valid(c.info)
    ensures Valid(s.conn.info)
    ensures s.conn == c.(info := s.conn.info)
    ensures !c.connected ==> s == Step(c, link, Ok(None))
    ensures s.out.Ok? && s.out.value.Some? ==>
      && IsEnumerated(s.conn.info, featureId)
      && s.out.value.value.devIdx == c.info.subIdx
      && s.out.value.value.feature == s.conn.info.features[featureId].idx
      && s.out.value.value.feature != 0xFF
      && s.out.value.value.swId == c.swId
  {
    if !c.connected then Step(c, link, Ok(None))
    else
      var e := EnumerateFeature(c, link, featureId);
      match e.out
      case Raised(x) => Step(e.conn, e.link, Raised(x))
      case Ok(found) =>
        if !found then Step(e.conn, e.link, Ok(None))
        else ProcessAt(e.conn, e.link, e.conn.info.features[featureId].idx, func, params)
  }

  /** For a known feature, exactly one request is sent, and this is it. */
  lemma {:induction false} KnownFeatureSendsOneRequest(c: Conn, link: Link, featureId: int, func: int, params: seq<int>)
    requires Valid(c.info) && c.connected && IsEnumerated(c.info, featureId)
    ensures var s := ConstructAndProcess(c, link, featureId, func, params);
      && s.conn == c
      && s.link.sent == link.sent + [MakeRequest(c.info.subIdx, c.info.features[featureId].idx, func, params)]
  {
  }

  /** The root lookup is the generic request on feature 0, parsed. */
  lemma {:induction false} GetFeatureIsGenericRequest(c: Conn, link: Link, featureId: int)
    requires Valid(c.info) && c.connected
    ensures var s := ConstructAndProcess(c, link, RootFeatureId, Root.GetFeatureFunction,
                                         Root.GetFeatureParams(featureId));
      GetFeature(c, link, featureId) == Step(s.conn, s.link, Root.ParseFeature(featureId, s.out.value))
  {
  }

  /** An unknown feature whose lookup comes back with index 0 is not added. */
  lemma {:induction false} NotFoundAddsNothing(c: Conn, link: Link, featureId: int, reply: Request)
    requires Valid(c.info) && c.connected && !IsEnumerated(c.info, featureId)
    requires link.replies != [] && link.replies[0] == Some(reply)
    requires reply.devIdx == c.info.subIdx && reply.feature == c.info.features[RootFeatureId].idx
    requires reply.feature != 0xFF && reply.swId == c.swId
    requires |reply.params| >= 1 && reply.params[0] == 0
    ensures EnumerateFeature(c, link, featureId).out == Ok(false)
    ensures EnumerateFeature(c, link, featureId).conn == c
  {
  }

  // --------------------------------------------------------- enumerate_all

  /** `X0001.get_count` through the generic request. */
  function GetCount(c: Conn, link: Link): (s: Step<int>)
    requires Valid(c.info)
    ensures Valid(s.conn.info) && s.conn == c.(info := s.conn.info)
    ensures IsEnumerated(c.info, FeatureSet.FeatureId) ==> s.conn == c
  {
    var p := ConstructAndProcess(c, link, FeatureSet.FeatureId, FeatureSet.GetCountFunction,
                                 FeatureSet.GetCountParams);
    match p.out
    case Raised(e) => Step(p.conn, p.link, Raised(e))
    case Ok(res) => Step(p.conn, p.link, FeatureSet.ParseCount(res))
  }

  /** `X0001.get_feature_id` through the generic request. */
  function GetFeatureId(c: Conn, link: Link, idx: int): (s: Step<FeatureInfo>)
    requires Valid(c.info)
    ensures Valid(s.conn.info) && s.conn == c.(info := s.conn.info)
    ensures IsEnumerated(c.info, FeatureSet.FeatureId) ==> s.conn == c
    ensures s.out.Ok? ==> s.out.value.idx == idx
    ensures c.connected && IsEnumerated(c.info, FeatureSet.FeatureId) ==>
      s.link.sent == link.sent + [MakeRequest(c.info.subIdx, c.info.features[FeatureSet.FeatureId].idx,
                                              FeatureSet.GetFeatureIdFunction, FeatureSet.GetFeatureIdParams(idx))]
  {
    var p := ConstructAndProcess(c, link, FeatureSet.FeatureId, FeatureSet.GetFeatureIdFunction,
                                 FeatureSet.GetFeatureIdParams(idx));
    match p.out
    case Raised(e) => Step(p.conn, p.link, Raised(e))
    case Ok(res) => Step(p.conn, p.link, FeatureSet.ParseFeatureId(idx, res))
  }

  /** How many indices `range(lo, hi + 1)` visits. */
  function SpanCount(lo: int, hi: int): nat { if lo <= hi then hi - lo + 1 else 0 }

  /**
   * The loop of `enumerate_all`: indices `lo..hi`, each looked up and added
   * to the directory whatever the lookup returned.
   */
  function EnumerateFrom(c: Conn, link: Link, lo: int, hi: int): (s: Step<bool>)
    requires Valid(c.info) && IsEnumerated(c.info, FeatureSet.FeatureId)
    ensures Valid(s.conn.info) && IsEnumerated(s.conn.info, FeatureSet.FeatureId)
    ensures s.conn == c.(info := s.conn.info)
    ensures s.out.Ok? ==> s.out.value
    ensures c.info.features.Keys <= s.conn.info.features.Keys
    ensures c.connected && s.out.Ok? ==> |s.link.sent| == |link.sent| + SpanCount(lo, hi)
    ensures forall id :: id in s.conn.info.features ==>
      (id in c.info.features && s.conn.info.features[id] == c.info.features[id])
      || lo <= s.conn.info.features[id].idx <= hi
    decreases SpanCount(lo, hi)
  {
    if lo > hi then Step(c, link, Ok(true))
    else
      var g := GetFeatureId(c, link, lo);
      match g.out
      case Raised(e) => Step(c, g.link, Raised(e))
      case Ok(f) => EnumerateFrom(c.(info := AddFeature(c.info, f)), g.link, lo + 1, hi)
  }

  /**
   * `enumerate_all`: fails when disconnected or when feature 0x0001 cannot be
   * enumerated; otherwise asks for the count and adds the entries at indices
   * 2 to count inclusive, failed lookups included: each of those comes back
   * with id 0 and replaces the root entry (see SilentDeviceOverwritesRoot).
   */
  function EnumerateAll(c: Conn, link: Link): (s: Step<bool>)
    requires Valid(c.info)
    ensures Valid(s.conn.info) && s.conn == c.(info := s.conn.info)
    ensures !c.connected ==> s == Step(c, link, Ok(false))
    ensures s.out == Ok(true) ==> IsEnumerated(s.conn.info, FeatureSet.FeatureId)
    ensures c.info.features.Keys <= s.conn.info.features.Keys
    ensures c.connected && IsEnumerated(c.info, FeatureSet.FeatureId) ==>
      forall id :: id in s.conn.info.features ==>
        (id in c.info.features && s.conn.info.features[id] == c.info.features[id])
        || 2 <= s.conn.info.features[id].idx
  {
    if !c.connected then Step(c, link, Ok(false))
    else
      var e := if IsEnumerated(c.info, FeatureSet.FeatureId) then Step(c, link, Ok(true))
               else EnumerateFeature(c, link, FeatureSet.FeatureId);
      match e.out
      case Raised(x) => Step(e.conn, e.link, Raised(x))
      case Ok(found) =>
        if !found then Step(e.conn, e.link, Ok(false))
        else
          var n := GetCount(e.conn, e.link);
          match n.out
          case Raised(x) => Step(n.conn, n.link, Raised(x))
          case Ok(cnt) => EnumerateFrom(n.conn, n.link, 2, cnt)
  }


  /**
   * `enumerate_all` with the corrected loop, which skips failed lookups
   * instead of letting them replace the root entry: the root entry is never
   * changed.
   */
  function EnumerateAllCorrected(c: Conn, link: Link): (s: Step<bool>)
    requires Valid(c.info)
    ensures Valid(s.conn.info) && s.conn == c.(info := s.conn.info)
    ensures !c.connected ==> s == Step(c, link, Ok(false))
    ensures s.out == Ok(true) ==> IsEnumerated(s.conn.info, FeatureSet.FeatureId)
    ensures c.info.features.Keys <= s.conn.info.features.Keys
    ensures s.conn.info.features[RootFeatureId] == c.info.features[RootFeatureId]
  {
    if !c.connected then Step(c, link, Ok(false))
    else
      var e := if IsEnumerated(c.info, FeatureSet.FeatureId) then Step(c, link, Ok(true))
               else EnumerateFeature(c, link, FeatureSet.FeatureId);
      match e.out
      case Raised(x) => Step(e.conn, e.link, Raised(x))
      case Ok(found) =>
        if !found then Step(e.conn, e.link, Ok(false))
        else
          var n := GetCount(e.conn, e.link);
          match n.out
          case Raised(x) => Step(n.conn, n.link, Raised(x))
          case Ok(cnt) => EnumerateFromKeepingRoot(n.conn, n.link, 2, cnt)
  }


  /**
   * A device that stops answering during the loop corrupts the root entry:
   * each unanswered lookup yields id 0, which replaces the root feature's
   * entry, so afterwards the root lookups go to index `hi` instead of 0.
   */
  lemma {:induction false} SilentDeviceOverwritesRoot(c: Conn, link: Link, hi: int)
    requires Valid(c.info) && IsEnumerated(c.info, FeatureSet.FeatureId)
    requires c.connected && link.replies == [] && hi >= 2
    ensures var s := EnumerateFrom(c, link, 2, hi);
      s.out.Ok? && s.conn.info.features[RootFeatureId] == FeatureInfo(0, hi, false, false, 0)
  {
    SilentLoopOverwritesRoot(c, link, 2, hi);
  }

  lemma {:induction false} SilentLoopOverwritesRoot(c: Conn, link: Link, lo: int, hi: int)
    requires Valid(c.info) && IsEnumerated(c.info, FeatureSet.FeatureId)
    requires c.connected && link.replies == [] && lo <= hi
    ensures var s := EnumerateFrom(c, link, lo, hi);
      s.out.Ok? && s.conn.info.features[RootFeatureId] == FeatureInfo(0, hi, false, false, 0)
    decreases hi - lo
  {
    var g := GetFeatureId(c, link, lo);
    assert g.out == Ok(FeatureInfo(0, lo, false, false, 0));
    var c' := c.(info := AddFeature(c.info, g.out.value));
    if lo < hi {
      SilentLoopOverwritesRoot(c', g.link, lo + 1, hi);
    }
  }

  /**
   * The loop as evidently intended: an entry that comes back with id 0 (the
   * lookup failed) is skipped, so the root entry survives.
   */
  function EnumerateFromKeepingRoot(c: Conn, link: Link, lo: int, hi: int): (s: Step<bool>)
    requires Valid(c.info) && IsEnumerated(c.info, FeatureSet.FeatureId)
    ensures Valid(s.conn.info) && IsEnumerated(s.conn.info, FeatureSet.FeatureId)
    ensures s.conn == c.(info := s.conn.info)
    ensures s.conn.info.features[RootFeatureId] == c.info.features[RootFeatureId]
    ensures c.info.features.Keys <= s.conn.info.features.Keys
    ensures c.connected && s.out.Ok? ==> |s.link.sent| == |link.sent| + SpanCount(lo, hi)
    decreases SpanCount(lo, hi)
  {
    if lo > hi then Step(c, link, Ok(true))
    else
      var g := GetFeatureId(c, link, lo);
      match g.out
      case Raised(e) => Step(c, g.link, Raised(e))
      case Ok(f) =>
        var c' := if f.id == RootFeatureId then c else c.(info := AddFeature(c.info, f));
        EnumerateFromKeepingRoot(c', g.link, lo + 1, hi)
  }

  // ------------------------------------------------ custom requests, length

  /**
   * `send_custom_request`: unlike the feature path it does not enumerate a
   * missing feature and does not validate the response.
   */
  function SendCustomRequest(c: Conn, link: Link, featureId: int, func: int, params: seq<int>)
    : (s: Step<Option<Request>>)
    ensures s.conn == c && s.out.Ok?
    ensures !c.connected || !IsEnumerated(c.info, featureId) ==> s == Step(c, link, Ok(None))
    ensures c.connected && IsEnumerated(c.info, featureId) ==>
      var e := Send(link, MakeRequest(c.info.subIdx, c.info.features[featureId].idx, func, params));
      s.link == e.link && s.out.value == e.res
  {
    if !c.connected || !IsEnumerated(c.info, featureId) then Step(c, link, Ok(None))
    else
      var e := Send(link, MakeRequest(c.info.subIdx, c.info.features[featureId].idx, func, params));
      Step(c, e.link, Ok(e.res))
  }

  /**
   * `__get_response_length`: probes the report length with a root request.
   * A very long reply switches the read length to 64, and a second very long
   * reply switches the send side to very long reports. Reading the type of a
   * missing second reply, or of a reply decoded from an unknown tag, raises.
   */
  function GetResponseLength(c: Conn, link: Link): (s: Step<bool>)
    ensures s.conn == c.(responseLength := s.conn.responseLength, isUsingVeryLong := s.conn.isUsingVeryLong)
    ensures s.conn.isUsingVeryLong != c.isUsingVeryLong ==>
      s.out == Ok(true) && s.conn.isUsingVeryLong && s.conn.responseLength == 64
    ensures s.conn.responseLength != c.responseLength ==> s.conn.responseLength == 64
    ensures s.out == Ok(false) ==> s.conn == c
    ensures s.out.Raised? ==> s.out.exc == AttributeError
  {
    var rootParams := [0, 0, 0];
    var r1 := SendCustomRequest(c, link, RootFeatureId, 0, rootParams);
    match r1.out.value
    case None => Step(c, r1.link, Ok(false))
    case Some(res) =>
      match res.reqType
      case None => Step(c, r1.link, Raised(AttributeError))
      case Some(Long) => Step(c, r1.link, Ok(true))
      case Some(Short) => Step(c, r1.link, Ok(true))
      case Some(VeryLong) =>
        var c1 := c.(responseLength := 64);
        var r2 := SendCustomRequest(c1, r1.link, RootFeatureId, 0, rootParams);
        match r2.out.value
        case None => Step(c1, r2.link, Raised(AttributeError))
        case Some(res2) =>
          if res2.reqType.None? then Step(c1, r2.link, Raised(AttributeError))
          else if res2.reqType == Some(VeryLong) then Step(c1.(isUsingVeryLong := true), r2.link, Ok(true))
          else Step(c1, r2.link, Ok(true))
  }
  // ------------------------------------------------- feature calls, parsed

  /** A feature function number and the params it is sent. */
  datatype Payload = Payload(func: int, params: seq<int>)

  /**
   * A feature method: the generic request for a payload, then the feature's
   * parser applied to the reply params. No reply gives None, and the parser
   * is not consulted.
   */
  function Call<T>(c: Conn, link: Link, featureId: int, q: Payload, parse: seq<int> -> Result<T>)
    : (s: Step<Option<T>>)
    requires Valid(c.info)
    ensures Valid(s.conn.info) && s.conn == c.(info := s.conn.info)
    ensures !c.connected ==> s == Step(c, link, Ok(None))
    ensures var p := ConstructAndProcess(c, link, featureId, q.func, q.params);
      && s.conn == p.conn && s.link == p.link
      && (p.out.Raised? ==> s.out == Raised(p.out.exc))
      && (p.out == Ok(None) ==> s.out == Ok(None))
      && (p.out.Ok? && p.out.value.Some? ==>
            (s.out.Ok? <==> parse(p.out.value.value.params).Ok?)
            && (s.out.Ok? ==> s.out.value == Some(parse(p.out.value.value.params).value)))
  {
    var p := ConstructAndProcess(c, link, featureId, q.func, q.params);
    match p.out
    case Raised(e) => Step(p.conn, p.link, Raised(e))
    case Ok(None) => Step(p.conn, p.link, Ok(None))
    case Ok(Some(res)) =>
      match parse(res.params)
      case Raised(e) => Step(p.conn, p.link, Raised(e))
      case Ok(v) => Step(p.conn, p.link, Ok(Some(v)))
  }

  /** A call on a feature already in the directory leaves the connection as it was. */
  lemma {:induction false} CallOnKnownFeature<T>(c: Conn, link: Link, featureId: int, q: Payload, parse: seq<int> -> Result<T>)
    requires Valid(c.info) && IsEnumerated(c.info, featureId)
    ensures Call(c, link, featureId, q, parse).conn == c
  {
    if c.connected {
      KnownFeatureSendsOneRequest(c, link, featureId, q.func, q.params);
    }
  }

  /** On a known feature of a connected device, a call sends exactly its request and keeps the connection. */
  lemma {:induction false} CallSendsOneRequest<T>(c: Conn, link: Link, featureId: int, q: Payload, parse: seq<int> -> Result<T>)
    requires Valid(c.info) && c.connected && IsEnumerated(c.info, featureId)
    ensures Call(c, link, featureId, q, parse).conn == c
    ensures Call(c, link, featureId, q, parse).link.sent == link.sent + [CallRequest(c, featureId, q)]
  {
    KnownFeatureSendsOneRequest(c, link, featureId, q.func, q.params);
  }

  /** A payload of exactly sixteen params fills a long report, so it is sent unpadded. */
  lemma {:induction false} FullPayloadSentAsIs(c: Conn, featureId: int, q: Payload)
    requires IsEnumerated(c.info, featureId) && |q.params| == 16
    ensures CallRequest(c, featureId, q).params == q.params
  {
    assert Capacity(RequestTypeFor(16)) == 16;
  }

  /** A reply frame the validation accepts for a known feature. */
  predicate Answers(c: Conn, featureId: int, r: Request)
    requires IsEnumerated(c.info, featureId)
  {
    r.devIdx == c.info.subIdx && r.feature == c.info.features[featureId].idx
    && r.feature != ErrorFeature && r.swId == c.swId
  }

  /** A parser's outcome seen through a call that had a reply. */
  function Answered<T>(r: Result<T>): (o: Result<Option<T>>)
    ensures o.Ok? <==> r.Ok?
    ensures r.Ok? ==> o.value == Some(r.value)
    ensures r.Raised? ==> o.exc == r.exc
  {
    match r
    case Ok(v) => Ok(Some(v))
    case Raised(e) => Raised(e)
  }

  /** The request a call on a known feature puts on the wire. */
  function CallRequest(c: Conn, featureId: int, q: Payload): Request
    requires IsEnumerated(c.info, featureId)
  {
    MakeRequest(c.info.subIdx, c.info.features[featureId].idx, q.func, q.params)
  }

  /**
   * On a known feature of a connected device, a call sends one request and
   * hands the params of an accepted reply to the parser.
   */
  lemma {:induction false} CallAnswered<T>(c: Conn, link: Link, featureId: int, q: Payload, parse: seq<int> -> Result<T>, r: Request)
    requires Valid(c.info) && c.connected && IsEnumerated(c.info, featureId)
    requires link.replies != [] && link.replies[0] == Some(r) && Answers(c, featureId, r)
    ensures Call(c, link, featureId, q, parse)
         == Step(c, Link(link.replies[1..], link.sent + [CallRequest(c, featureId, q)]), Answered(parse(r.params)))
  {
    KnownFeatureSendsOneRequest(c, link, featureId, q.func, q.params);
  }

  /** Without an accepted reply, a call on a known feature gives None. */
  lemma {:induction false} CallUnanswered<T>(c: Conn, link: Link, featureId: int, q: Payload, parse: seq<int> -> Result<T>)
    requires Valid(c.info) && c.connected && IsEnumerated(c.info, featureId)
    requires link.replies == [] || link.replies[0].None? || !Answers(c, featureId, link.replies[0].value)
    ensures Call(c, link, featureId, q, parse).out == Ok(None)
    ensures Call(c, link, featureId, q, parse).conn == c
  {
    KnownFeatureSendsOneRequest(c, link, featureId, q.func, q.params);
  }
  /**
   * A feature method that reads `res.params` without checking for None:
   * where no reply came, the attribute access raises AttributeError.
   */
  function CallStrict<T>(c: Conn, link: Link, featureId: int, q: Payload, parse: seq<int> -> Result<T>)
    : (s: Step<T>)
    requires Valid(c.info)
    ensures var o := Call(c, link, featureId, q, parse);
      && s.conn == o.conn && s.link == o.link
      && (o.out == Ok(None) ==> s.out == Raised(AttributeError))
      && (o.out.Raised? ==> s.out == Raised(o.out.exc))
      && (o.out.Ok? && o.out.value.Some? ==> s.out == Ok(o.out.value.value))
  {
    var o := Call(c, link, featureId, q, parse);
    match o.out
    case Raised(e) => Step(o.conn, o.link, Raised(e))
    case Ok(None) => Step(o.conn, o.link, Raised(AttributeError))
    case Ok(Some(v)) => Step(o.conn, o.link, Ok(v))
  }

  /** On a known feature, a strict call hands an accepted reply's params to the parser. */
  lemma {:induction false} CallStrictAnswered<T>(c: Conn, link: Link, featureId: int, q: Payload, parse: seq<int> -> Result<T>, r: Request)
    requires Valid(c.info) && c.connected && IsEnumerated(c.info, featureId)
    requires link.replies != [] && link.replies[0] == Some(r) && Answers(c, featureId, r)
    ensures CallStrict(c, link, featureId, q, parse)
         == Step(c, Link(link.replies[1..], link.sent + [CallRequest(c, featureId, q)]), parse(r.params))
  {
    CallAnswered(c, link, featureId, q, parse, r);
  }

  /**
   * A feature method that also answers None for a reply its parser
   * declines (too few params, say): the parser's None and the missing reply
   * look the same to the caller.
   */
  function CallOpt<T>(c: Conn, link: Link, featureId: int, q: Payload, parse: seq<int> -> Result<Option<T>>)
    : (s: Step<Option<T>>)
    requires Valid(c.info)
    ensures var o := Call(c, link, featureId, q, parse);
      && s.conn == o.conn && s.link == o.link
      && (o.out.Raised? ==> s.out == Raised(o.out.exc))
      && (o.out == Ok(None) ==> s.out == Ok(None))
      && (o.out.Ok? && o.out.value.Some? ==> s.out == Ok(o.out.value.value))
  {
    var o := Call(c, link, featureId, q, parse);
    match o.out
    case Raised(e) => Step(o.conn, o.link, Raised(e))
    case Ok(None) => Step(o.conn, o.link, Ok(None))
    case Ok(Some(v)) => Step(o.conn, o.link, Ok(v))
  }

  lemma {:induction false} CallOptAnswered<T>(c: Conn, link: Link, featureId: int, q: Payload, parse: seq<int> -> Result<Option<T>>, r: Request)
    requires Valid(c.info) && c.connected && IsEnumerated(c.info, featureId)
    requires link.replies != [] && link.replies[0] == Some(r) && Answers(c, featureId, r)
    ensures CallOpt(c, link, featureId, q, parse)
         == Step(c, Link(link.replies[1..], link.sent + [CallRequest(c, featureId, q)]), parse(r.params))
  {
    CallAnswered(c, link, featureId, q, parse, r);
  }

  /**
   * A feature method that returns the validated reply itself, for a
   * payload whose construction may already have raised.
   */
  function Invoke(c: Conn, link: Link, featureId: int, q: Result<Payload>): (s: Step<Option<Request>>)
    requires Valid(c.info)
    ensures q.Raised? ==> s == Step(c, link, Raised(q.exc))
    ensures q.Ok? && c.connected && IsEnumerated(c.info, featureId) ==>
      && s.conn == c
      && s.link.sent == link.sent + [CallRequest(c, featureId, q.value)]
  {
    match q
    case Raised(e) => Step(c, link, Raised(e))
    case Ok(p) =>
      if c.connected && IsEnumerated(c.info, featureId) then
        KnownFeatureSendsOneRequest(c, link, featureId, p.func, p.params);
        ConstructAndProcess(c, link, featureId, p.func, p.params)
      else ConstructAndProcess(c, link, featureId, p.func, p.params)
  }

  /**
   * A feature method with no return statement: the request is sent and
   * validated as by `Invoke`, and the caller gets None whatever came back.
   */
  function Command(c: Conn, link: Link, featureId: int, q: Result<Payload>): (s: Step<()>)
    requires Valid(c.info)
    ensures var i := Invoke(c, link, featureId, q);
      && s.conn == i.conn && s.link == i.link
      && (s.out.Ok? <==> i.out.Ok?)
      && (i.out.Raised? ==> s.out == Raised(i.out.exc))
  {
    var i := Invoke(c, link, featureId, q);
    match i.out
    case Raised(e) => Step(i.conn, i.link, Raised(e))
    case Ok(_) => Step(i.conn, i.link, Ok(()))
  }
}
