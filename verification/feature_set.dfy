/**
 * Feature 0x0001, FeatureSet (features/x0001.py): the feature count and the
 * feature id at a given index.
 */
module FeatureSet {
  import opened Wrappers
  import opened Bits
  import opened Frame
  import opened Device
  import Root

  const FeatureId := 0x0001
  const GetCountFunction := 0
  const GetFeatureIdFunction := 1

  const GetCountParams: seq<int> := [0, 0, 0]

  function GetFeatureIdParams(idx: int): (p: seq<int>)
    ensures |p| == 3 && p[0] == idx && p[1] == 0 && p[2] == 0
  {
    [idx, 0, 0]
  }

  /** `get_count`: the first param of the reply, or 0 without one. */
  function ParseCount(res: Option<Request>): (r: Result<int>)
    ensures res.None? ==> r == Ok(0)
    ensures res.Some? && |res.value.params| >= 1 ==> r == Ok(res.value.params[0])
    ensures r.Raised? <==> res.Some? && |res.value.params| == 0
    ensures r.Raised? ==> r.exc == IndexError
  {
    match res
    case None => Ok(0)
    case Some(rep) => if |rep.params| == 0 then Raised(IndexError) else Ok(rep.params[0])
  }

  /**
   * `get_feature_id`: the entry at index `idx`, which always carries the
   * requested index. Without a reply the id is 0.
   */
  function ParseFeatureId(idx: int, res: Option<Request>): (r: Result<FeatureInfo>)
    ensures r.Ok? ==> r.value.idx == idx
    ensures res.None? ==> r == Ok(FeatureInfo(0, idx, false, false, 0))
    ensures r.Raised? <==> res.Some? && |res.value.params| < 4
    ensures r.Raised? ==> r.exc == IndexError
    ensures r.Ok? && res.Some? ==>
      var p := res.value.params;
      && (IsByte(p[1]) ==> r.value.id == 256 * p[0] + p[1])
      && (r.value.obsolete <==> BitAt(p[2], 7) == 1)
      && (r.value.eng <==> BitAt(p[2], 5) == 1)
      && r.value.version == p[3]
  {
    match res
    case None => Ok(FeatureInfo(0, idx, false, false, 0))
    case Some(rep) =>
      var p := rep.params;
      if |p| < 4 then Raised(IndexError)
      else
        OrOfDisjoint(p[0], p[1], 8);
        Ok(FeatureInfo(BitOr(ShiftLeft(p[0], 8), p[1]), idx, BitAt(p[2], 7) == 1, BitAt(p[2], 5) == 1, p[3]))
  }

  /** The params a device sends back for an entry: id big-endian, flags, version. */
  function ReplyParams(info: FeatureInfo): seq<int>
    requires 0 <= info.id < 0x1_0000
  {
    [info.id / 256, info.id % 256, Root.FlagsByte(info.obsolete, info.eng), info.version]
  }

  /** Parsing the reply that describes an entry gives the entry back. */
  lemma {:induction false} ParseFeatureIdRoundTrip(info: FeatureInfo, reply: Request)
    requires 0 <= info.id < 0x1_0000
    requires |reply.params| >= 4 && reply.params[..4] == ReplyParams(info)
    ensures ParseFeatureId(info.idx, Some(reply)) == Ok(info)
  {
    var p := reply.params;
    assert p[0] == info.id / 256 && p[1] == info.id % 256;
    assert p[2] == Root.FlagsByte(info.obsolete, info.eng) && p[3] == info.version;
  }
}
