/**
 * Feature 0x8081, per-key lighting (features/x8081.py): setting zones to
 * colours one by one or by ranges, and ending the frame so the new colours
 * apply. Each method returns None whatever the reply.
 */
module X8081 {
  import opened Wrappers
  import opened Bits
  import opened IntCodec
  import opened Packing
  import opened Frame
  import opened Device
  import opened Connection
  import opened FeatureCall

  const FeatureId := 0x8081

  /** The chunks one after another: the list the loop's appends and extends build. */
  function Concat(chunks: seq<seq<int>>): (r: seq<int>)
    decreases |chunks|
  {
    if chunks == [] then [] else chunks[0] + Concat(chunks[1..])
  }

  predicate Uniform(chunks: seq<seq<int>>, w: nat)
  {
    forall i :: 0 <= i < |chunks| ==> |chunks[i]| == w
  }

  /** Chunks of one width make a list that many widths long. */
  lemma {:induction false} ConcatLength(chunks: seq<seq<int>>, w: nat)
    requires Uniform(chunks, w)
    ensures |Concat(chunks)| == w * |chunks|
    decreases |chunks|
  {
    if chunks != [] {
      ConcatLength(chunks[1..], w);
    }
  }

  /** Chunk i of a uniform list sits at w * i. */
  lemma {:induction false} ConcatChunk(chunks: seq<seq<int>>, w: nat, i: nat)
    requires Uniform(chunks, w) && i < |chunks|
    ensures w * i + w <= |Concat(chunks)| && Concat(chunks)[w * i..w * i + w] == chunks[i]
    decreases i
  {
    var tail := chunks[1..];
    ConcatLength(tail, w);
    if i > 0 {
      ConcatChunk(tail, w, i - 1);
      assert tail[i - 1] == chunks[i];
      assert w * i == w + w * (i - 1);
    }
  }

  /**
   * `setIndividualRgbZones`' params: each zone followed by its colour. A
   * colour list shorter than the zone list raises IndexError.
   */
  function IndividualZonesParams(zones: seq<int>, colours: seq<seq<int>>): (r: Result<seq<int>>)
    ensures r.Ok? <==> |colours| >= |zones|
    ensures r.Raised? ==> r.exc == IndexError
  {
    if |colours| < |zones| then Raised(IndexError)
    else Ok(Concat(seq(|zones|, i requires 0 <= i < |zones| => [zones[i]] + colours[i])))
  }

  /** `setRangeRgbZones`' params: first zone, last zone and colour for each range. */
  function RangeZonesParams(first: seq<int>, last: seq<int>, colours: seq<seq<int>>): (r: Result<seq<int>>)
    ensures r.Ok? <==> |last| >= |first| && |colours| >= |first|
    ensures r.Raised? ==> r.exc == IndexError
  {
    if |last| < |first| || |colours| < |first| then Raised(IndexError)
    else Ok(Concat(seq(|first|, i requires 0 <= i < |first| => [first[i], last[i]] + colours[i])))
  }

  predicate AllRgb(colours: seq<seq<int>>)
  {
    forall i :: 0 <= i < |colours| ==> |colours[i]| == 3
  }

  /** With three-byte colours, zone i and its colour are params 4i to 4i+3. */
  lemma {:induction false} IndividualZonesLayout(zones: seq<int>, colours: seq<seq<int>>)
    requires |colours| == |zones| && AllRgb(colours)
    ensures var p := IndividualZonesParams(zones, colours).value;
      && |p| == 4 * |zones|
      && forall i :: 0 <= i < |zones| ==> p[4 * i..4 * i + 4] == [zones[i]] + colours[i]
  {
    var chunks := seq(|zones|, i requires 0 <= i < |zones| => [zones[i]] + colours[i]);
    ConcatLength(chunks, 4);
    forall i | 0 <= i < |zones|
      ensures Concat(chunks)[4 * i..4 * i + 4] == [zones[i]] + colours[i]
    {
      ConcatChunk(chunks, 4, i);
    }
  }

  /** With three-byte colours, range i is params 5i to 5i+4. */
  lemma {:induction false} RangeZonesLayout(first: seq<int>, last: seq<int>, colours: seq<seq<int>>)
    requires |last| == |first| && |colours| == |first| && AllRgb(colours)
    ensures var p := RangeZonesParams(first, last, colours).value;
      && |p| == 5 * |first|
      && forall i :: 0 <= i < |first| ==> p[5 * i..5 * i + 5] == [first[i], last[i]] + colours[i]
  {
    var chunks := seq(|first|, i requires 0 <= i < |first| => [first[i], last[i]] + colours[i]);
    ConcatLength(chunks, 5);
    forall i | 0 <= i < |first|
      ensures Concat(chunks)[5 * i..5 * i + 5] == [first[i], last[i]] + colours[i]
    {
      ConcatChunk(chunks, 5, i);
    }
  }

  /**
   * `frameEnd`'s params: persistence, then the current frame and the frames
   * until the next change as big-endian u16s; struct.error out of range.
   */
  function FrameEndParams(persistence: int, current: int, frames: int): (r: Result<seq<int>>)
    ensures r.Ok? <==> InU16(current) && InU16(frames)
    ensures r.Raised? ==> r.exc == StructError
    ensures r.Ok? ==> |r.value| == 5 && r.value[0] == persistence && IsBytes(r.value[1..])
    ensures r.Ok? ==> U16At(r.value, 1) == current && U16At(r.value, 3) == frames
  {
    match PackU16Be(current)
    case Raised(e) => Raised(e)
    case Ok(a) =>
      match PackU16Be(frames)
      case Raised(e) => Raised(e)
      case Ok(b) =>
        var p := [persistence] + a + b;
        assert p[1..3] == a && p[3..5] == b && p[1..] == a + b;
        U16AtBe16(p, 1, current);
        U16AtBe16(p, 3, frames);
        Ok(p)
  }

  /** All defaults zero: five zero params. */
  lemma {:induction false} FrameEndDefaults()
    ensures FrameEndParams(0, 0, 0) == Ok([0, 0, 0, 0, 0])
  {
    var p := FrameEndParams(0, 0, 0).value;
    assert p[1..3] == [p[1], p[2]] && p[3..5] == [p[3], p[4]];
    assert p == [0, 0, 0, 0, 0];
  }

  function SetIndividualRgbZones(c: Conn, link: Link, zones: seq<int>, colours: seq<seq<int>>): Step<()>
    requires Valid(c.info)
  {
    Command(c, link, FeatureId,
            match IndividualZonesParams(zones, colours)
            case Raised(e) => Raised(e)
            case Ok(p) => Ok(Payload(1, p)))
  }

  function SetRangeRgbZones(c: Conn, link: Link, first: seq<int>, last: seq<int>, colours: seq<seq<int>>): Step<()>
    requires Valid(c.info)
  {
    Command(c, link, FeatureId,
            match RangeZonesParams(first, last, colours)
            case Raised(e) => Raised(e)
            case Ok(p) => Ok(Payload(5, p)))
  }

  function FrameEnd(c: Conn, link: Link, persistence: int, current: int, frames: int): Step<()>
    requires Valid(c.info)
  {
    Command(c, link, FeatureId,
            match FrameEndParams(persistence, current, frames)
            case Raised(e) => Raised(e)
            case Ok(p) => Ok(Payload(7, p)))
  }

  /** On a known feature, three zones in red, green and blue go out as one twelve-param request. */
  lemma {:induction false} ThreeZonesSent(c: Conn, link: Link)
    requires Valid(c.info) && c.connected && IsEnumerated(c.info, FeatureId)
    ensures SetIndividualRgbZones(c, link, [1, 3, 6], [[255, 0, 0], [0, 255, 0], [0, 0, 255]]).link.sent
         == link.sent + [CallRequest(c, FeatureId, Payload(1, [1, 255, 0, 0, 3, 0, 255, 0, 6, 0, 0, 255]))]
  {
    var zones := [1, 3, 6];
    var colours := [[255, 0, 0], [0, 255, 0], [0, 0, 255]];
    var p := IndividualZonesParams(zones, colours).value;
    IndividualZonesLayout(zones, colours);
    assert p[0..4] == [zones[0]] + colours[0];
    assert p[4..8] == [zones[1]] + colours[1];
    assert p[8..12] == [zones[2]] + colours[2];
    assert p == p[0..4] + p[4..8] + p[8..12];
    assert p == [1, 255, 0, 0, 3, 0, 255, 0, 6, 0, 0, 255];
    var i := Invoke(c, link, FeatureId, Ok(Payload(1, p)));
    assert SetIndividualRgbZones(c, link, zones, colours).link == i.link;
  }
}
