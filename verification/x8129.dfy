/**
 * Feature 0x8129 (features/x8129.py): a device's drivers, each with
 * curves (indexed tables of typed points) and functions with typed
 * arguments, described by attributes read one at a time. Typed values are
 * big-endian; names arrive in chunks of at most seventeen characters and
 * end with a NUL.
 *
 * Enum arguments are modelled as datatypes. A type argument the caller
 * leaves at its integer default (not a `CurveType`) is `None` here: no
 * branch of the source matches it.
 */
module X8129 {
  import opened Wrappers
  import opened Bits
  import opened IntCodec
  import opened Packing
  import opened Text
  import opened Frame
  import opened Device
  import opened Connection
  import opened FeatureCall

  const FeatureId := 0x8129

  /** The most characters one name or description chunk carries. */
  const ChunkLength := 17

  datatype DriverAttribute = Infos | DriverName | DriverDescription
  {
    function Code(): int
    {
      match this
      case Infos => 0
      case DriverName => 1
      case DriverDescription => 2
    }
  }

  datatype CurveAttribute = CurveKind | MinIndex | MaxIndex | CurveMin | CurveMax | CurveName | CurveDescription
  {
    function Code(): int
    {
      match this
      case CurveKind => 0
      case MinIndex => 1
      case MaxIndex => 2
      case CurveMin => 3
      case CurveMax => 4
      case CurveName => 5
      case CurveDescription => 6
    }
  }

  datatype FunctionAttribute = ArgCount | FunctionName | FunctionDescription
  {
    function Code(): int
    {
      match this
      case ArgCount => 0
      case FunctionName => 1
      case FunctionDescription => 2
    }
  }

  datatype ArgumentAttribute = ArgKind | ArgMin | ArgMax | ArgValue | ArgDefault | ArgName | ArgDescription
  {
    function Code(): int
    {
      match this
      case ArgKind => 0
      case ArgMin => 1
      case ArgMax => 2
      case ArgValue => 3
      case ArgDefault => 4
      case ArgName => 5
      case ArgDescription => 6
    }
  }

  datatype CurveType = TNone | Int16 | UInt16 | Int32 | UInt32 | Float | Bool | Int8 | UInt8

  function TypeCode(t: CurveType): int
  {
    match t
    case TNone => 0
    case Int16 => 1
    case UInt16 => 2
    case Int32 => 3
    case UInt32 => 4
    case Float => 5
    case Bool => 6
    case Int8 => 7
    case UInt8 => 8
  }

  /** `CurveType(n)`: ValueError for a number that names no type. */
  function TypeOfCode(n: int): (r: Result<CurveType>)
    ensures r.Ok? <==> 0 <= n <= 8
    ensures r.Raised? ==> r.exc == ValueError
  {
    if n == 0 then Ok(TNone) else if n == 1 then Ok(Int16) else if n == 2 then Ok(UInt16)
    else if n == 3 then Ok(Int32) else if n == 4 then Ok(UInt32) else if n == 5 then Ok(Float)
    else if n == 6 then Ok(Bool) else if n == 7 then Ok(Int8) else if n == 8 then Ok(UInt8)
    else Raised(ValueError)
  }

  /** Type codes and types correspond one to one. */
  lemma {:induction false} TypeCodeRoundTrip(t: CurveType, n: int)
    ensures TypeOfCode(TypeCode(t)) == Ok(t)
    ensures TypeOfCode(n).Ok? ==> TypeCode(TypeOfCode(n).value) == n
  {
  }

  /** The bytes a value of each type occupies. */
  function Width(t: CurveType): nat
  {
    match t
    case TNone => 0
    case Int16 | UInt16 => 2
    case Int32 | UInt32 | Float => 4
    case Bool | Int8 | UInt8 => 1
  }

  /** A value read from the device; a float is kept as its four IEEE 754 bytes. */
  datatype Value = IntV(i: int) | BoolV(b: bool) | FloatV(bits: seq<int>)

  predicate InI8(v: int) { -128 <= v < 128 }

  /** Decode exactly `Width(t)` bytes; the caller has checked length and byte range. */
  function Decode(t: CurveType, s: seq<int>): Value
    requires t != TNone && |s| == Width(t)
  {
    match t
    case Int16 => IntV(ListToI16Be(s))
    case UInt16 => IntV(ListToU16Be(s))
    case Int32 => IntV(ListToI32Be(s))
    case UInt32 => IntV(ListToU32Be(s))
    case Float => FloatV(s)
    case Bool => BoolV(s[0] != 0)
    case Int8 => IntV(ListToI8(s))
    case UInt8 => IntV(ListToU8(s))
  }

  /**
   * `_read_attribute_value`: `struct.unpack` of the slice at the offset.
   * `bytes()` raises ValueError for a non-byte param, then a slice of the
   * wrong length raises struct.error.
   */
  function ReadValue(p: seq<int>, t: Option<CurveType>, offset: nat): (r: Result<Option<Value>>)
    ensures t.None? || t == Some(TNone) ==> r == Ok(None)
    ensures t.Some? && t.value != TNone ==>
      var s := Slice(p, offset, offset + Width(t.value));
      && (r.Ok? <==> IsBytes(s) && |s| == Width(t.value))
      && (r.Raised? ==> r.exc == (if IsBytes(s) then StructError else ValueError))
      && (r.Ok? ==> r.value.Some?)
    ensures t == Some(Bool) && r.Ok? ==> r.value.value == BoolV(p[offset] != 0)
  {
    match t
    case None => Ok(None)
    case Some(ty) =>
      if ty == TNone then Ok(None)
      else
        var s := Slice(p, offset, offset + Width(ty));
        if !IsBytes(s) then Raised(ValueError)
        else if |s| != Width(ty) then Raised(StructError)
        else Ok(Some(Decode(ty, s)))
  }

  /** The range `struct.pack` accepts for each integer type. */
  predicate Fits(t: CurveType, v: int)
  {
    match t
    case Int16 => InI16(v)
    case UInt16 => InU16(v)
    case Int32 => InI32(v)
    case UInt32 => InU32(v)
    case Int8 => InI8(v)
    case UInt8 => IsByte(v)
    case _ => true
  }

  /**
   * `_write_attribute_value` for integer values: the type's big-endian
   * bytes, struct.error out of range, None for TNone. A Bool packs the
   * value's truth.
   */
  function WriteValue(v: int, t: CurveType): (r: Result<Option<seq<int>>>)
    requires t != Float
    ensures r.Ok? <==> Fits(t, v)
    ensures r.Raised? ==> r.exc == StructError
    ensures r.Ok? ==> (r.value.None? <==> t == TNone)
    ensures r.Ok? && r.value.Some? ==> |r.value.value| == Width(t) && IsBytes(r.value.value)
  {
    if !Fits(t, v) then Raised(StructError)
    else
      match t
      case TNone => Ok(None)
      case Int16 => Ok(Some(I16ToListBe(v)))
      case UInt16 => Ok(Some(U16ToListBe(v)))
      case Int32 => Ok(Some(I32ToListBe(v)))
      case UInt32 => Ok(Some(U32ToListBe(v)))
      case Bool => Ok(Some([if v != 0 then 1 else 0]))
      case Int8 => Ok(Some([v % 256]))
      case UInt8 => Ok(Some([v]))
  }

  predicate IsIntType(t: CurveType)
  {
    t != TNone && t != Float && t != Bool
  }

  /** Reading the bytes at an offset sees exactly the bytes placed there. */
  lemma {:induction false} SliceOfPlaced(pre: seq<int>, b: seq<int>, rest: seq<int>)
    ensures Slice(pre + b + rest, |pre|, |pre| + |b|) == b
  {
    assert (pre + b + rest)[|pre|..|pre| + |b|] == b;
  }

  /** Reading at the offset where a type's bytes were placed decodes exactly those bytes. */
  lemma {:induction false} ReadPlaced(t: CurveType, pre: seq<int>, b: seq<int>, rest: seq<int>)
    requires t != TNone && |b| == Width(t) && IsBytes(b)
    ensures ReadValue(pre + b + rest, Some(t), |pre|) == Ok(Some(Decode(t, b)))
  {
    SliceOfPlaced(pre, b, rest);
  }

  /** Decoding the bytes an integer was written as gives the integer. */
  lemma {:induction false} DecodeWritten(t: CurveType, v: int)
    requires IsIntType(t) && Fits(t, v)
    ensures WriteValue(v, t).Ok? && WriteValue(v, t).value.Some?
    ensures Decode(t, WriteValue(v, t).value.value) == IntV(v)
  {
    match t
    case Int16 => I16RoundTrip(v);
    case UInt16 => U16RoundTrip(v);
    case Int32 => I32RoundTrip(v);
    case UInt32 => U32RoundTrip(v);
    case Int8 =>
    case UInt8 =>
  }

  /**
   * An integer written with a type and read back with the same type, at
   * any offset of the reply, is the value written.
   */
  lemma {:induction false} ValueRoundTrip(t: CurveType, v: int, pre: seq<int>, rest: seq<int>)
    requires IsIntType(t) && Fits(t, v)
    ensures WriteValue(v, t).Ok? && WriteValue(v, t).value.Some?
    ensures ReadValue(pre + WriteValue(v, t).value.value + rest, Some(t), |pre|) == Ok(Some(IntV(v)))
  {
    DecodeWritten(t, v);
    ReadPlaced(t, pre, WriteValue(v, t).value.value, rest);
  }

  /** A written Bool reads back as the value's truth. */
  lemma {:induction false} BoolRoundTrip(v: int, pre: seq<int>, rest: seq<int>)
    ensures ReadValue(pre + WriteValue(v, Bool).value.value + rest, Some(Bool), |pre|) == Ok(Some(BoolV(v != 0)))
  {
    SliceOfPlaced(pre, WriteValue(v, Bool).value.value, rest);
  }

  // ----------------------------------------------------------- attributes

  /** What the attribute getters return. */
  datatype Answer =
    | Counts(curves: int, functions: int)      // driver Infos
    | Count(n: int)                            // function ArgCount
    | Chunk(text: string)                      // a name or description chunk
    | Typed(t: CurveType, flags: Option<int>)  // a curve's type and flags, an argument's type
    | Valued(v: Option<Value>)                 // a typed value, None for an unmatched type
    | NonePair                                 // `(None, None)` for a missing curve argument

  /** A name or description chunk: the characters of the first seventeen params. */
  function ParseChunk(p: seq<int>): (r: Result<Answer>)
    ensures IsBytes(Slice(p, 0, ChunkLength)) ==> r.Ok? && r.value.Chunk?
    ensures r.Ok? ==> r.value.Chunk? && |r.value.text| == Min(|p|, ChunkLength)
    ensures r.Ok? ==> forall i :: 0 <= i < |r.value.text| ==> r.value.text[i] as int == p[i]
  {
    match Chars(Slice(p, 0, ChunkLength))
    case Raised(e) => Raised(e)
    case Ok(s) => Ok(Chunk(s))
  }

  function DriverAttributeRequest(driver: int, attr: DriverAttribute, offset: int): (q: Payload)
    ensures q.func == 1 && q.params == [driver, attr.Code(), offset]
  {
    Payload(1, [driver, attr.Code(), offset])
  }

  /** Infos gives the curve and function counts in p0 and p1; Name and Description a chunk. */
  function ParseDriverAttribute(attr: DriverAttribute, p: seq<int>): (r: Result<Answer>)
    ensures attr == Infos ==> (r.Ok? <==> |p| >= 2)
    ensures attr == Infos && r.Ok? ==> r.value == Counts(p[0], p[1])
    ensures attr != Infos ==> r == ParseChunk(p)
  {
    match attr
    case Infos =>
      if |p| < 2 then Raised(IndexError) else Ok(Counts(p[0], p[1]))
    case _ => ParseChunk(p)
  }

  function CurveAttributeRequest(driver: int, curve: int, attr: CurveAttribute, offset: int): (q: Payload)
    ensures q.func == 2 && q.params == [driver, curve, attr.Code(), offset]
  {
    Payload(2, [driver, curve, attr.Code(), offset])
  }

  /**
   * Type gives the curve type from p0 (ValueError if unknown) and the flags
   * in p1; the index bounds are u32; the value bounds use the type given.
   */
  function ParseCurveAttribute(attr: CurveAttribute, curveType: Option<CurveType>, p: seq<int>): (r: Result<Answer>)
    ensures attr == CurveKind && r.Ok? ==>
      |p| >= 2 && r.value.Typed? && TypeOfCode(p[0]) == Ok(r.value.t) && r.value.flags == Some(p[1])
    ensures attr in {MinIndex, MaxIndex} ==> r == ValuedOf(ReadValue(p, Some(UInt32), 0))
    ensures attr in {CurveMin, CurveMax} ==> r == ValuedOf(ReadValue(p, curveType, 0))
    ensures attr in {CurveName, CurveDescription} ==> r == ParseChunk(p)
  {
    match attr
    case CurveKind =>
      if |p| < 1 then Raised(IndexError)
      else
        (match TypeOfCode(p[0])
         case Raised(e) => Raised(e)
         case Ok(t) => if |p| < 2 then Raised(IndexError) else Ok(Typed(t, Some(p[1]))))
    case MinIndex => ValuedOf(ReadValue(p, Some(UInt32), 0))
    case MaxIndex => ValuedOf(ReadValue(p, Some(UInt32), 0))
    case CurveMin => ValuedOf(ReadValue(p, curveType, 0))
    case CurveMax => ValuedOf(ReadValue(p, curveType, 0))
    case CurveName => ParseChunk(p)
    case CurveDescription => ParseChunk(p)
  }

  function ValuedOf(r: Result<Option<Value>>): (a: Result<Answer>)
    ensures a.Ok? <==> r.Ok?
    ensures r.Ok? ==> a.value == Valued(r.value)
    ensures r.Raised? ==> a.exc == r.exc
  {
    match r
    case Raised(e) => Raised(e)
    case Ok(v) => Ok(Valued(v))
  }

  function FunctionAttributeRequest(driver: int, fn: int, attr: FunctionAttribute, offset: int): (q: Payload)
    ensures q.func == 7 && q.params == [driver, fn, attr.Code(), offset]
  {
    Payload(7, [driver, fn, attr.Code(), offset])
  }

  function ParseFunctionAttribute(attr: FunctionAttribute, p: seq<int>): (r: Result<Answer>)
    ensures attr == ArgCount ==> (r.Ok? <==> |p| >= 1)
    ensures attr == ArgCount && r.Ok? ==> r.value == Count(p[0])
    ensures attr != ArgCount ==> r == ParseChunk(p)
  {
    match attr
    case ArgCount => if |p| < 1 then Raised(IndexError) else Ok(Count(p[0]))
    case _ => ParseChunk(p)
  }

  function ArgumentAttributeRequest(driver: int, fn: int, argument: int, attr: ArgumentAttribute, offset: int)
    : (q: Payload)
    ensures q.func == 8 && q.params == [driver, fn, argument, attr.Code(), offset]
  {
    Payload(8, [driver, fn, argument, attr.Code(), offset])
  }

  function ParseArgumentAttribute(attr: ArgumentAttribute, curveType: Option<CurveType>, p: seq<int>)
    : (r: Result<Answer>)
    ensures attr == ArgKind && r.Ok? ==>
      |p| >= 1 && r.value.Typed? && TypeOfCode(p[0]) == Ok(r.value.t) && r.value.flags.None?
    ensures attr in {ArgMin, ArgMax, ArgValue, ArgDefault} ==>
      r == ValuedOf(ReadValue(p, curveType, 0))
    ensures attr in {ArgName, ArgDescription} ==> r == ParseChunk(p)
  {
    match attr
    case ArgKind =>
      if |p| < 1 then Raised(IndexError)
      else
        (match TypeOfCode(p[0])
         case Raised(e) => Raised(e)
         case Ok(t) => Ok(Typed(t, None)))
    case ArgName => ParseChunk(p)
    case ArgDescription => ParseChunk(p)
    case _ => ValuedOf(ReadValue(p, curveType, 0))
  }

  // --------------------------------------------------------- curve points

  datatype Point = Point(value: Option<Value>, timestamp: Option<Value>)

  /** `get_curve_point`'s payload: driver and curve, then the point index as a big-endian u32. */
  function CurvePointRequest(driver: int, curve: int, point: int): (q: Result<Payload>)
    ensures q.Ok? <==> InU32(point)
    ensures q.Raised? ==> q.exc == StructError
    ensures q.Ok? ==> q.value.func == 3 && q.value.params == [driver, curve] + U32ToListBe(point)
  {
    match WriteValue(point, UInt32)
    case Raised(e) => Raised(e)
    case Ok(b) => Ok(Payload(3, [driver, curve] + b.value))
  }

  /** The point's value at offset 0 with the curve's type, and a u32 timestamp at offset 4. */
  function ParsePoint(curveType: Option<CurveType>, p: seq<int>): (r: Result<Point>)
    ensures r.Ok? <==> ReadValue(p, curveType, 0).Ok? && ReadValue(p, Some(UInt32), 4).Ok?
    ensures r.Ok? ==> r.value == Point(ReadValue(p, curveType, 0).value, ReadValue(p, Some(UInt32), 4).value)
  {
    match ReadValue(p, curveType, 0)
    case Raised(e) => Raised(e)
    case Ok(v) =>
      match ReadValue(p, Some(UInt32), 4)
      case Raised(e) => Raised(e)
      case Ok(ts) => Ok(Point(v, ts))
  }

  /** A 16-bit point value followed by a timestamp reads back as both. */
  lemma {:induction false} PointRoundTrip(v: int, ts: int, rest: seq<int>)
    requires InI16(v) && InU32(ts)
    ensures ParsePoint(Some(Int16), I16ToListBe(v) + [0, 0] + U32ToListBe(ts) + rest)
         == Ok(Point(Some(IntV(v)), Some(IntV(ts))))
  {
    var p := I16ToListBe(v) + [0, 0] + U32ToListBe(ts) + rest;
    assert p == [] + WriteValue(v, Int16).value.value + ([0, 0] + U32ToListBe(ts) + rest);
    ValueRoundTrip(Int16, v, [], [0, 0] + U32ToListBe(ts) + rest);
    assert p == (I16ToListBe(v) + [0, 0]) + WriteValue(ts, UInt32).value.value + rest;
    ValueRoundTrip(UInt32, ts, I16ToListBe(v) + [0, 0], rest);
  }

  /**
   * `set_curve_point`'s payload: the point index and the value in the
   * curve's type. A TNone or unmatched type packs to None, and adding None
   * to the list raises TypeError.
   */
  function SetCurvePointRequest(driver: int, curve: int, point: int, value: int, curveType: Option<CurveType>)
    : (q: Result<Payload>)
    requires curveType != Some(Float)
    ensures !InU32(point) ==> q == Raised(StructError)
    ensures q.Ok? <==> InU32(point) && curveType.Some? && curveType.value != TNone && Fits(curveType.value, value)
    ensures InU32(point) && (curveType.None? || curveType == Some(TNone)) ==> q == Raised(TypeError)
    ensures q.Ok? ==> q.value.func == 4 && |q.value.params| == 6 + Width(curveType.value)
                      && q.value.params[..6] == [driver, curve] + U32ToListBe(point)
  {
    match WriteValue(point, UInt32)
    case Raised(e) => Raised(e)
    case Ok(pb) =>
      match curveType
      case None => Raised(TypeError)
      case Some(t) =>
        match WriteValue(value, t)
        case Raised(e) => Raised(e)
        case Ok(None) => Raised(TypeError)
        case Ok(Some(vb)) => Ok(Payload(4, [driver, curve] + pb.value + vb))
  }

  /** A set request carries the point index and then the value, each readable back at its offset. */
  lemma {:induction false} SetCurvePointLayout(driver: int, curve: int, point: int, value: int, t: CurveType)
    requires IsIntType(t) && InU32(point) && Fits(t, value)
    ensures SetCurvePointRequest(driver, curve, point, value, Some(t)).Ok?
    ensures var p := SetCurvePointRequest(driver, curve, point, value, Some(t)).value.params;
      && ReadValue(p, Some(UInt32), 2) == Ok(Some(IntV(point)))
      && ReadValue(p, Some(t), 6) == Ok(Some(IntV(value)))
  {
    var pb := WriteValue(point, UInt32).value.value;
    var vb := WriteValue(value, t).value.value;
    var p := [driver, curve] + pb + vb;
    assert p == [driver, curve] + pb + (vb + []);
    ValueRoundTrip(UInt32, point, [driver, curve], vb);
    assert p == ([driver, curve] + pb) + vb + [];
    ValueRoundTrip(t, value, [driver, curve] + pb, []);
  }

  /** `set_function_argument`'s payload: driver, function, argument, then the typed value. */
  function SetArgumentRequest(driver: int, fn: int, argument: int, value: int, t: Option<CurveType>)
    : (q: Result<Payload>)
    requires t != Some(Float)
    ensures t.None? || t == Some(TNone) ==> q == Raised(TypeError)
    ensures q.Ok? <==> t.Some? && t.value != TNone && Fits(t.value, value)
    ensures q.Ok? ==> q.value.func == 9 && |q.value.params| == 3 + Width(t.value)
                      && q.value.params[..3] == [driver, fn, argument]
  {
    match t
    case None => Raised(TypeError)
    case Some(ty) =>
      match WriteValue(value, ty)
      case Raised(e) => Raised(e)
      case Ok(None) => Raised(TypeError)
      case Ok(Some(vb)) => Ok(Payload(9, [driver, fn, argument] + vb))
  }

  // -------------------------------------------------------- device calls

  function GetInfo(c: Conn, link: Link): Step<Option<int>>
    requires Valid(c.info)
  {
    Call(c, link, FeatureId, Payload(0, []), p => At(p, 0))
  }

  /** A missing driver or attribute returns None without sending anything. */
  function GetDriverAttribute(c: Conn, link: Link, driver: Option<int>, attr: Option<DriverAttribute>, offset: int)
    : Step<Option<Answer>>
    requires Valid(c.info)
  {
    if driver.None? || attr.None? then Step(c, link, Ok(None))
    else Call(c, link, FeatureId, DriverAttributeRequest(driver.value, attr.value, offset),
              p => ParseDriverAttribute(attr.value, p))
  }

  /** A missing argument returns the pair `(None, None)` without sending anything. */
  function GetCurveAttribute(c: Conn, link: Link, driver: Option<int>, curve: Option<int>,
                             attr: Option<CurveAttribute>, offset: int, curveType: Option<CurveType>)
    : Step<Option<Answer>>
    requires Valid(c.info)
  {
    if driver.None? || curve.None? || attr.None? then Step(c, link, Ok(Some(NonePair)))
    else Call(c, link, FeatureId, CurveAttributeRequest(driver.value, curve.value, attr.value, offset),
              p => ParseCurveAttribute(attr.value, curveType, p))
  }

  function GetCurvePoint(c: Conn, link: Link, driver: Option<int>, curve: Option<int>, point: Option<int>,
                         curveType: Option<CurveType>)
    : Step<Option<Point>>
    requires Valid(c.info)
  {
    if driver.None? || curve.None? || point.None? then Step(c, link, Ok(None))
    else
      match CurvePointRequest(driver.value, curve.value, point.value)
      case Raised(e) => Step(c, link, Raised(e))
      case Ok(q) => Call(c, link, FeatureId, q, p => ParsePoint(curveType, p))
  }

  /**
   * `set_curve_point` returns None whatever the reply. A missing argument
   * sends nothing; an index outside u32 or a value type that packs to None
   * raises before sending; otherwise the one set request goes out.
   */
  function SetCurvePoint(c: Conn, link: Link, driver: Option<int>, curve: Option<int>, point: Option<int>,
                         value: Option<int>, curveType: Option<CurveType>)
    : (s: Step<()>)
    requires Valid(c.info) && curveType != Some(Float)
    ensures driver.None? || curve.None? || point.None? || value.None? ==> s == Step(c, link, Ok(()))
    ensures driver.Some? && curve.Some? && point.Some? && value.Some? ==>
      && (!InU32(point.value) ==> s == Step(c, link, Raised(StructError)))
      && (InU32(point.value) && (curveType.None? || curveType == Some(TNone)) ==> s == Step(c, link, Raised(TypeError)))
    ensures driver.Some? && curve.Some? && point.Some? && value.Some? && c.connected && IsEnumerated(c.info, FeatureId)
            && InU32(point.value) && curveType.Some? && curveType.value != TNone && Fits(curveType.value, value.value) ==>
      && s.conn == c
      && s.link.sent == link.sent
           + [CallRequest(c, FeatureId, SetCurvePointRequest(driver.value, curve.value, point.value, value.value, curveType).value)]
  {
    if driver.None? || curve.None? || point.None? || value.None? then Step(c, link, Ok(()))
    else Command(c, link, FeatureId, SetCurvePointRequest(driver.value, curve.value, point.value, value.value, curveType))
  }

  function GetFunctionAttribute(c: Conn, link: Link, driver: Option<int>, fn: Option<int>,
                                attr: Option<FunctionAttribute>, offset: int)
    : Step<Option<Answer>>
    requires Valid(c.info)
  {
    if driver.None? || fn.None? || attr.None? then Step(c, link, Ok(None))
    else Call(c, link, FeatureId, FunctionAttributeRequest(driver.value, fn.value, attr.value, offset),
              p => ParseFunctionAttribute(attr.value, p))
  }

  function GetArgumentAttribute(c: Conn, link: Link, driver: Option<int>, fn: Option<int>, argument: Option<int>,
                                attr: Option<ArgumentAttribute>, offset: int, curveType: Option<CurveType>)
    : Step<Option<Answer>>
    requires Valid(c.info)
  {
    if driver.None? || fn.None? || argument.None? || attr.None? then Step(c, link, Ok(None))
    else Call(c, link, FeatureId,
              ArgumentAttributeRequest(driver.value, fn.value, argument.value, attr.value, offset),
              p => ParseArgumentAttribute(attr.value, curveType, p))
  }

  /**
   * `set_function_argument`: a missing driver, function or argument sends
   * nothing; a value type that packs to None raises TypeError before
   * sending; otherwise the one set request goes out.
   */
  function SetFunctionArgument(c: Conn, link: Link, driver: Option<int>, fn: Option<int>, argument: Option<int>,
                               value: int, curveType: Option<CurveType>)
    : (s: Step<()>)
    requires Valid(c.info) && curveType != Some(Float)
    ensures driver.None? || fn.None? || argument.None? ==> s == Step(c, link, Ok(()))
    ensures driver.Some? && fn.Some? && argument.Some? && (curveType.None? || curveType == Some(TNone)) ==>
      s == Step(c, link, Raised(TypeError))
    ensures driver.Some? && fn.Some? && argument.Some? && c.connected && IsEnumerated(c.info, FeatureId)
            && curveType.Some? && curveType.value != TNone && Fits(curveType.value, value) ==>
      && s.conn == c
      && s.link.sent == link.sent
           + [CallRequest(c, FeatureId, SetArgumentRequest(driver.value, fn.value, argument.value, value, curveType).value)]
  {
    if driver.None? || fn.None? || argument.None? then Step(c, link, Ok(()))
    else Command(c, link, FeatureId, SetArgumentRequest(driver.value, fn.value, argument.value, value, curveType))
  }

  function CallFunction(c: Conn, link: Link, driver: Option<int>, fn: Option<int>): Step<()>
    requires Valid(c.info)
  {
    if driver.None? || fn.None? then Step(c, link, Ok(()))
    else Command(c, link, FeatureId, Ok(Payload(10, [driver.value, fn.value])))
  }

  /** A missing argument sends nothing: the link and connection are untouched. */
  lemma {:induction false} MissingArgumentSendsNothing(c: Conn, link: Link, curve: Option<int>, attr: Option<CurveAttribute>, t: Option<CurveType>)
    requires Valid(c.info)
    ensures GetDriverAttribute(c, link, None, Some(Infos), 0) == Step(c, link, Ok(None))
    ensures GetCurveAttribute(c, link, None, curve, attr, 0, t) == Step(c, link, Ok(Some(NonePair)))
  {
  }

  /**
   * On a known feature, `get_curve_point` sends the driver, the curve and
   * the big-endian point index to function 3, and a reply holding the
   * value and the timestamp is read back.
   */
  lemma {:induction false} CurvePointAnswered(c: Conn, link: Link, r: Request, driver: int, curve: int, point: int, v: int, ts: int, rest: seq<int>)
    requires Valid(c.info) && c.connected && IsEnumerated(c.info, FeatureId)
    requires link.replies != [] && link.replies[0] == Some(r) && Answers(c, FeatureId, r)
    requires InU32(point) && InI16(v) && InU32(ts)
    requires r.params == I16ToListBe(v) + [0, 0] + U32ToListBe(ts) + rest
    ensures var s := GetCurvePoint(c, link, Some(driver), Some(curve), Some(point), Some(Int16));
      && s.out == Ok(Some(Point(Some(IntV(v)), Some(IntV(ts)))))
      && s.link.sent == link.sent + [CallRequest(c, FeatureId, Payload(3, [driver, curve] + U32ToListBe(point)))]
  {
    var q := CurvePointRequest(driver, curve, point).value;
    CallAnswered(c, link, FeatureId, q, p => ParsePoint(Some(Int16), p), r);
    PointRoundTrip(v, ts, rest);
  }

  // ---------------------------------------------------- name-based lookup

  /** How reading one name ends. */
  datatype NameRead = Read(text: string) | ReadFailed(exc: Exc) | Unterminated

  /**
   * The inner loop of `find_driver_index`: chunks at offsets 0, 1, ... are
   * appended until the text ends with a NUL. `chunk(i, k)` is what
   * `get_driver_attribute(i, Name, k)` returns: a text, None (no reply,
   * which the append turns into TypeError) or an exception. The loop has no
   * bound in the source; after `limit` chunks without a NUL the read is
   * `Unterminated`.
   */
  function ReadName(chunk: (nat, nat) -> Result<Option<string>>, index: nat, offset: nat, acc: string, limit: nat)
    : (r: NameRead)
    ensures r.Read? ==> |r.text| > 0 && r.text[|r.text| - 1] == 0 as char
    decreases limit
  {
    if limit == 0 then Unterminated
    else
      match chunk(index, offset)
      case Raised(e) => ReadFailed(e)
      case Ok(None) => ReadFailed(TypeError)
      case Ok(Some(s)) =>
        var t := acc + s;
        if |t| > 0 && t[|t| - 1] == 0 as char then Read(t)
        else ReadName(chunk, index, offset + 1, t, limit - 1)
  }

  /** How a lookup by name ends. */
  datatype Search = Found(index: nat) | NotFound | Failed(exc: Exc) | Unfinished

  /** Does driver i's name, read in full, equal `name` once its NULs are stripped? */
  predicate Matches(chunk: (nat, nat) -> Result<Option<string>>, i: nat, name: string, limit: nat)
  {
    var r := ReadName(chunk, i, 0, "", limit);
    r.Read? && RStripNul(r.text) == name
  }

  /** Driver i's name was read in full and differs. */
  predicate Differs(chunk: (nat, nat) -> Result<Option<string>>, i: nat, name: string, limit: nat)
  {
    var r := ReadName(chunk, i, 0, "", limit);
    r.Read? && RStripNul(r.text) != name
  }

  /** The outer loop: drivers `index`, `index + 1`, ... below `count`, first match wins. */
  function SearchFrom(chunk: (nat, nat) -> Result<Option<string>>, name: string, index: nat, count: int, limit: nat)
    : Search
    decreases count - index
  {
    if index >= count then NotFound
    else
      match ReadName(chunk, index, 0, "", limit)
      case ReadFailed(e) => Failed(e)
      case Unterminated => Unfinished
      case Read(t) => if RStripNul(t) == name then Found(index) else SearchFrom(chunk, name, index + 1, count, limit)
  }

  /**
   * `find_driver_index` given `get_info`'s outcome: None (no reply) makes
   * `range(None)` raise TypeError.
   */
  function FindDriverIndex(info: Result<Option<int>>, chunk: (nat, nat) -> Result<Option<string>>, name: string, limit: nat)
    : (r: Search)
    ensures info.Raised? ==> r == Failed(info.exc)
    ensures info == Ok(None) ==> r == Failed(TypeError)
    ensures r.Found? ==> info.Ok? && info.value.Some? && r.index < info.value.value
                         && Matches(chunk, r.index, name, limit)
                         && forall j :: 0 <= j < r.index ==> Differs(chunk, j, name, limit)
    ensures r == NotFound ==> info.Ok? && info.value.Some?
                              && forall j :: 0 <= j < info.value.value ==> Differs(chunk, j, name, limit)
  {
    match info
    case Raised(e) => Failed(e)
    case Ok(None) => Failed(TypeError)
    case Ok(Some(count)) =>
      var r := SearchFrom(chunk, name, 0, count, limit);
      if r.Found? then
        SearchFoundFirst(chunk, name, 0, count, limit);
        r
      else if r == NotFound then
        SearchNotFound(chunk, name, 0, count, limit);
        r
      else r
  }

  /** A found index matches, and every driver before it was read in full and differs. */
  lemma {:induction false} SearchFoundFirst(chunk: (nat, nat) -> Result<Option<string>>, name: string, index: nat, count: int, limit: nat)
    requires SearchFrom(chunk, name, index, count, limit).Found?
    ensures var i := SearchFrom(chunk, name, index, count, limit).index;
      && index <= i < count && Matches(chunk, i, name, limit)
      && forall j :: index <= j < i ==> Differs(chunk, j, name, limit)
    decreases count - index
  {
    if !Matches(chunk, index, name, limit) {
      SearchFoundFirst(chunk, name, index + 1, count, limit);
    }
  }

  /** NotFound means every driver below the count was read in full and none matches. */
  lemma {:induction false} SearchNotFound(chunk: (nat, nat) -> Result<Option<string>>, name: string, index: nat, count: int, limit: nat)
    requires SearchFrom(chunk, name, index, count, limit) == NotFound
    ensures forall j :: index <= j < count ==> Differs(chunk, j, name, limit)
    decreases count - index
  {
    if index < count {
      SearchNotFound(chunk, name, index + 1, count, limit);
    }
  }

  /** When every driver before a matching one reads in full and differs, that driver is found. */
  lemma {:induction false} FirstMatchFound(chunk: (nat, nat) -> Result<Option<string>>, name: string, index: nat, count: int, limit: nat, k: nat)
    requires index <= k < count && Matches(chunk, k, name, limit)
    requires forall j :: index <= j < k ==> Differs(chunk, j, name, limit)
    ensures SearchFrom(chunk, name, index, count, limit) == Found(k)
    decreases k - index
  {
    if index < k {
      assert Differs(chunk, index, name, limit);
      FirstMatchFound(chunk, name, index + 1, count, limit, k);
    }
  }

  /** A driver count of zero or less finds nothing without reading any name. */
  lemma {:induction false} NoDriversNotFound(chunk: (nat, nat) -> Result<Option<string>>, name: string, count: int, limit: nat)
    requires count <= 0
    ensures FindDriverIndex(Ok(Some(count)), chunk, name, limit) == NotFound
  {
  }
}
