/**
 * Feature 0x0000, Root (features/x0000.py): the lookup of a feature id's
 * runtime index.
 */
module Root {
  import opened Wrappers
  import opened Bits
  import opened Frame
  import opened Device

  const FeatureId := 0x0000
  const GetFeatureFunction := 0

  /** `get_feature`'s params: the feature id big-endian, then a zero. */
  function GetFeatureParams(featureId: int): (p: seq<int>)
    ensures |p| == 3 && IsBytes(p) && p[2] == 0
    ensures 0 <= featureId < 0x1_0000 ==> 256 * p[0] + p[1] == featureId
  {
    [LowByte(ShiftRight(featureId, 8)), LowByte(featureId), 0]
  }

  /** The flags byte of a feature entry: bit 7 obsolete, bit 5 engineering. */
  function FlagsByte(obsolete: bool, eng: bool): (b: int)
    ensures IsByte(b)
    ensures BitAt(b, 7) == 1 <==> obsolete
    ensures BitAt(b, 5) == 1 <==> eng
  {
    (if obsolete then 128 else 0) + (if eng then 32 else 0)
  }

  /**
   * The directory entry `get_feature` builds from the reply. It always
   * carries the requested id. No reply gives index 0 and default flags; a
   * reply index of 0 means "not found" and leaves the flags and version at
   * their defaults. A reply too short for the bytes read raises IndexError.
   */
  function ParseFeature(featureId: int, res: Option<Request>): (r: Result<FeatureInfo>)
    ensures r.Ok? ==> r.value.id == featureId
    ensures res.None? ==> r == Ok(FeatureInfo(featureId, 0, false, false, 0))
    ensures r.Raised? <==>
      res.Some? && (|res.value.params| == 0 || (res.value.params[0] != 0 && |res.value.params| < 3))
    ensures r.Raised? ==> r.exc == IndexError
    ensures r.Ok? && res.Some? ==> r.value.idx == res.value.params[0]
    ensures r.Ok? && r.value.idx == 0 ==> !r.value.obsolete && !r.value.eng && r.value.version == 0
    ensures r.Ok? && res.Some? && r.value.idx != 0 ==>
      && (r.value.obsolete <==> BitAt(res.value.params[1], 7) == 1)
      && (r.value.eng <==> BitAt(res.value.params[1], 5) == 1)
      && r.value.version == res.value.params[2]
  {
    match res
    case None => Ok(FeatureInfo(featureId, 0, false, false, 0))
    case Some(rep) =>
      var p := rep.params;
      if |p| == 0 then Raised(IndexError)
      else if p[0] == 0 then Ok(FeatureInfo(featureId, 0, false, false, 0))
      else if |p| < 3 then Raised(IndexError)
      else Ok(FeatureInfo(featureId, p[0], BitAt(p[1], 7) == 1, BitAt(p[1], 5) == 1, p[2]))
  }

  /** The params a device sends back for an entry: index, flags byte, version. */
  function ReplyParams(info: FeatureInfo): seq<int>
  {
    [info.idx, FlagsByte(info.obsolete, info.eng), info.version]
  }

  /** Parsing the reply that describes an entry gives the entry back. */
  lemma {:induction false} ParseFeatureRoundTrip(info: FeatureInfo, reply: Request)
    requires info.idx != 0
    requires |reply.params| >= 3 && reply.params[..3] == ReplyParams(info)
    ensures ParseFeature(info.id, Some(reply)) == Ok(info)
  {
    assert reply.params[0] == info.idx && reply.params[1] == FlagsByte(info.obsolete, info.eng);
    assert reply.params[2] == info.version;
  }
}
