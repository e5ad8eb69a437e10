/**
 * The HID++ request record and its wire form (core/request.py).
 *
 * A frame starts with a report tag (0x10 short, 0x11 long, 0x12 very long,
 * giving 7, 20 or 64 bytes), then the device index, the feature index, a byte
 * packing the function number in its high nibble and the software id in its
 * low nibble, and finally the parameters.
 */
module Frame {
  import opened Wrappers
  import opened Bits

  datatype ReqType = Short | Long | VeryLong

  /**
   * An `HIDPPRequest` object. `reqType` is `None` when the object was decoded
   * from a list with an unknown tag: the Python object then has neither
   * `req_type` nor `length`, and touching them raises AttributeError.
   */
  datatype Request = Request(
    reqType: Option<ReqType>,
    devIdx: int,
    feature: int,
    func: int,
    swId: int,
    params: seq<int>)

  const ShortTag := 0x10
  const LongTag := 0x11
  const VeryLongTag := 0x12

  function TypeLength(t: ReqType): nat
  {
    match t
    case Short => 7
    case Long => 20
    case VeryLong => 64
  }

  function Tag(t: ReqType): int
  {
    match t
    case Short => ShortTag
    case Long => LongTag
    case VeryLong => VeryLongTag
  }

  /** The report type a first byte announces, if it is one of the three tags. */
  function TypeOfTag(b: int): (t: Option<ReqType>)
    ensures t.Some? <==> b in {ShortTag, LongTag, VeryLongTag}
    ensures t.Some? ==> Tag(t.value) == b
  {
    if b == ShortTag then Some(Short)
    else if b == LongTag then Some(Long)
    else if b == VeryLongTag then Some(VeryLong)
    else None
  }

  /** The `req_type` strings the field constructor recognises. */
  function TypeOfName(name: string): (t: Option<ReqType>)
    ensures t == Some(VeryLong) <==> name == "VERY LONG"
    ensures t == Some(Long) <==> name == "LONG"
    ensures t == Some(Short) <==> name == "SHORT"
  {
    if name == "VERY LONG" then Some(VeryLong)
    else if name == "LONG" then Some(Long)
    else if name == "SHORT" then Some(Short)
    else None
  }

  function TypeName(t: ReqType): string
  {
    match t
    case Short => "SHORT"
    case Long => "LONG"
    case VeryLong => "VERY LONG"
  }

  /** How many parameter bytes a report of type `t` carries. */
  function Capacity(t: ReqType): nat { TypeLength(t) - 4 }

  /**
   * The invariant both constructors establish: a typed request carries at
   * least as many params as its report has room for (more is possible, since
   * nothing truncates).
   */
  predicate WellFormed(r: Request)
  {
    r.reqType.Some? ==> |r.params| >= Capacity(r.reqType.value)
  }

  /**
   * `HIDPPRequest(from_list=l)`. A known tag pads the list with zeros to the
   * report length; an unknown tag is only logged and the fields are read
   * anyway. Reading past the end of the list raises IndexError.
   */
  function FromList(l: seq<int>): (r: Result<Request>)
    ensures l == [] ==> r == Raised(IndexError)
    ensures l != [] && l[0] in {ShortTag, LongTag, VeryLongTag} ==>
      r.Ok? && r.value.reqType == TypeOfTag(l[0])
      && |r.value.params| == (if |l| >= TypeLength(r.value.reqType.value) then |l| else TypeLength(r.value.reqType.value)) - 4
    ensures l != [] && l[0] !in {ShortTag, LongTag, VeryLongTag} ==>
      (r.Ok? <==> |l| >= 4) && (r.Ok? ==> r.value.reqType.None? && r.value.params == l[4..])
    ensures r.Ok? ==> WellFormed(r.value)
    ensures r.Ok? && |l| >= 4 ==>
      && r.value.devIdx == l[1] && r.value.feature == l[2]
      && r.value.func == ShiftRight(l[3], 4) && r.value.swId == LowBits(l[3], 4)
      && r.value.params[..|l| - 4] == l[4..]
  {
    if l == [] then Raised(IndexError)
    else
      var t := TypeOfTag(l[0]);
      var padded := if t.Some? then PadTo(l, TypeLength(t.value)) else l;
      if |padded| < 4 then Raised(IndexError)
      else Ok(Request(t, padded[1], padded[2], padded[3] / 16, padded[3] % 16, padded[4..]))
  }

  /**
   * `HIDPPRequest(dev_idx, feature, function, sw_id, params, req_type)`. The
   * params are padded with zeros up to the capacity and never truncated. An
   * unknown type name is only logged, but the padding loop then reads the
   * missing `length` and raises AttributeError.
   */
  function FromFields(devIdx: int, feature: int, func: int, swId: int,
                      params: seq<int>, typeName: string): (r: Result<Request>)
    ensures r.Ok? <==> TypeOfName(typeName).Some?
    ensures r.Raised? ==> r.exc == AttributeError
    ensures r.Ok? ==>
      && r.value.reqType == TypeOfName(typeName)
      && r.value.devIdx == devIdx && r.value.feature == feature
      && r.value.func == func && r.value.swId == swId
      && |r.value.params| == (if |params| >= Capacity(r.value.reqType.value) then |params| else Capacity(r.value.reqType.value))
      && r.value.params[..|params|] == params
      && (forall i :: |params| <= i < |r.value.params| ==> r.value.params[i] == 0)
      && WellFormed(r.value)
  {
    match TypeOfName(typeName)
    case None => Raised(AttributeError)
    case Some(t) => Ok(Request(Some(t), devIdx, feature, func, swId, PadTo(params, Capacity(t))))
  }

  /** The keyword defaults of the constructor. */
  const DefaultDevIdx := 0xFF
  const DefaultFeature := 0x00
  const DefaultFunction := 0x00
  const DefaultSwId := 0x0F
  const DefaultTypeName := "LONG"

  /** A request built with every keyword left at its default except `params`. */
  function WithDefaults(params: seq<int>): Result<Request>
  {
    FromFields(DefaultDevIdx, DefaultFeature, DefaultFunction, DefaultSwId, params, DefaultTypeName)
  }

  lemma {:induction false} DefaultsAreLongBroadcast(params: seq<int>)
    ensures WithDefaults(params).Ok?
    ensures var r := WithDefaults(params).value;
      r.reqType == Some(Long) && r.devIdx == 0xFF && r.feature == 0
      && r.func == 0 && r.swId == 0x0F && |r.params| >= 16
  {
  }

  /**
   * Python `function << 4 | sw_id`; a software id that fits its nibble lands
   * in the low four bits untouched.
   */
  function PackFunctionSwId(func: int, swId: int): (b: int)
    ensures 0 <= swId < 16 ==> b == 16 * func + swId
  {
    OrOfDisjoint(func, swId, 4);
    BitOr(ShiftLeft(func, 4), swId)
  }

  /**
   * `build_request`: a zero list of the report length, the tag, the three
   * header bytes, then `req[4:] = params`. That slice assignment replaces the
   * tail wholesale, so params beyond the capacity lengthen the frame. Without
   * a type the object has no `length` and the first line raises.
   */
  function BuildRequest(r: Request): (out: Result<seq<int>>)
    ensures out.Ok? <==> r.reqType.Some?
    ensures out.Raised? ==> out.exc == AttributeError
    ensures out.Ok? ==>
      && |out.value| == 4 + |r.params|
      && out.value[0] == Tag(r.reqType.value)
      && out.value[1] == r.devIdx
      && out.value[2] == r.feature
      && out.value[4..] == r.params
    ensures out.Ok? && 0 <= r.swId < 16 ==> out.value[3] == 16 * r.func + r.swId
    ensures out.Ok? && WellFormed(r) ==>
      (|out.value| == TypeLength(r.reqType.value) <==> |r.params| == Capacity(r.reqType.value))
  {
    match r.reqType
    case None => Raised(AttributeError)
    case Some(t) =>
      var req := Zeros(TypeLength(t))[0 := Tag(t)][1 := r.devIdx][2 := r.feature]
                 [3 := PackFunctionSwId(r.func, r.swId)];
      Ok(req[..4] + r.params)
  }

  /**
   * Decoding an encoded request gives it back, for any typed, well-formed
   * request whose software id fits its nibble. The function number needs no
   * bound: Python's shift and floor division undo each other on any int.
   */
  lemma {:induction false} BuildThenDecode(r: Request)
    requires r.reqType.Some? && WellFormed(r)
    requires 0 <= r.swId < 16
    ensures BuildRequest(r).Ok?
    ensures FromList(BuildRequest(r).value) == Ok(r)
  {
    var l := BuildRequest(r).value;
    SplitOfDisjoint(r.func, r.swId, 4);
    assert l[3] == PackFunctionSwId(r.func, r.swId);
    assert PadTo(l, TypeLength(r.reqType.value)) == l;
  }

  /**
   * Encoding a decoded list gives back the list, zero-padded to the report
   * length, whenever it starts with a known tag.
   */
  lemma {:induction false} DecodeThenBuild(l: seq<int>)
    requires l != [] && TypeOfTag(l[0]).Some?
    ensures FromList(l).Ok?
    ensures BuildRequest(FromList(l).value) == Ok(PadTo(l, TypeLength(TypeOfTag(l[0]).value)))
  {
    var t := TypeOfTag(l[0]).value;
    var p := PadTo(l, TypeLength(t));
    assert PackFunctionSwId(p[3] / 16, p[3] % 16) == p[3];
    var r := FromList(l).value;
    assert r == Request(Some(t), p[1], p[2], p[3] / 16, p[3] % 16, p[4..]);
    var out := BuildRequest(r).value;
    assert out[0] == p[0] && out[1] == p[1] && out[2] == p[2] && out[3] == p[3];
    assert out[4..] == p[4..];
    assert out == p;
  }

  /**
   * An unknown first byte is not rejected: a list of at least four entries
   * still decodes, without a type, and its header fields are read as usual.
   * Encoding such a request raises.
   */
  lemma {:induction false} UnknownTagAccepted(l: seq<int>)
    requires |l| >= 4 && TypeOfTag(l[0]).None?
    ensures FromList(l).Ok? && FromList(l).value.reqType.None?
    ensures FromList(l).value.devIdx == l[1] && FromList(l).value.feature == l[2]
    ensures BuildRequest(FromList(l).value) == Raised(AttributeError)
  {
  }

  /** Params longer than the capacity survive construction and lengthen the frame. */
  lemma {:induction false} OverlongParamsLengthenFrame(params: seq<int>, typeName: string)
    requires TypeOfName(typeName).Some?
    requires |params| > Capacity(TypeOfName(typeName).value)
    ensures var r := FromFields(0xFF, 0, 0, 0x0F, params, typeName);
      r.Ok? && r.value.params == params
      && BuildRequest(r.value).Ok?
      && |BuildRequest(r.value).value| > TypeLength(TypeOfName(typeName).value)
  {
  }
}
