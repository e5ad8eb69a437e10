/**
 * Feature 0x92D1, motor movement (features/x92d1.py): one command that
 * starts a move with a current, speed, angle and hold time, a mode and
 * flags, in a sixteen-byte payload.
 */
module X92D1 {
  import opened Wrappers
  import opened Bits
  import opened IntCodec
  import opened Packing
  import opened Frame
  import opened Device
  import opened Connection
  import opened FeatureCall

  const FeatureId := 0x92D1

  datatype Mode = Normal | Stop | Loop
  {
    function Code(): int
    {
      match this
      case Normal => 0
      case Stop => 1
      case Loop => 2
    }
  }

  datatype Flags = NoFlags | StopOnStopper | OpenLoop
  {
    function Code(): int
    {
      match this
      case NoFlags => 0
      case StopOnStopper => 1
      case OpenLoop => 2
    }
  }

  /**
   * `start_moving`'s params: the four u16s stored at 0, 2, 4 and 6 (each
   * packed before it is stored, so the first out of range raises
   * struct.error), the mode at 8 and the flags at 9.
   */
  function StartMovingParams(current: int, speed: int, angle: int, hold: int, mode: Mode, flags: Flags)
    : (r: Result<seq<int>>)
    ensures r.Raised? ==> r.exc == StructError
  {
    match PutU16s(Zeros16(), 0, [current, speed, angle, hold])
    case Raised(e) => Raised(e)
    case Ok(d) => Ok(d[8 := mode.Code()][9 := flags.Code()])
  }

  /** The command is built exactly when all four values fit 16 bits. */
  lemma {:induction false} StartMovingOk(current: int, speed: int, angle: int, hold: int, mode: Mode, flags: Flags)
    ensures StartMovingParams(current, speed, angle, hold, mode, flags).Ok?
        <==> InU16(current) && InU16(speed) && InU16(angle) && InU16(hold)
  {
    var vs := [current, speed, angle, hold];
    PutU16sOk(Zeros16(), 0, vs);
    assert (forall k :: 0 <= k < 4 ==> InU16(vs[k])) <==> InU16(vs[0]) && InU16(vs[1]) && InU16(vs[2]) && InU16(vs[3]);
  }

  /** A built command holds the four pairs high byte first, the mode, the flags, and six zeros. */
  lemma {:induction false} StartMovingLayout(current: int, speed: int, angle: int, hold: int, mode: Mode, flags: Flags)
    requires InU16(current) && InU16(speed) && InU16(angle) && InU16(hold)
    ensures StartMovingParams(current, speed, angle, hold, mode, flags)
         == Ok(Pairs([current, speed, angle, hold]) + [mode.Code(), flags.Code()] + Zeros(6))
  {
    var vs := [current, speed, angle, hold];
    var d := Pairs(vs) + Zeros16()[8..];
    assert PutU16s(Zeros16(), 0, vs) == Ok(d) by {
      PutU16sFromStart(Zeros16(), vs);
    }
    var q := Pairs(vs) + [mode.Code(), flags.Code()] + Zeros(6);
    assert forall i :: 0 <= i < 16 ==> d[8 := mode.Code()][9 := flags.Code()][i] == q[i];
    assert d[8 := mode.Code()][9 := flags.Code()] == q;
  }

  /** Each value is read back from its pair. */
  lemma {:induction false} StartMovingReadBack(current: int, speed: int, angle: int, hold: int, mode: Mode, flags: Flags)
    requires InU16(current) && InU16(speed) && InU16(angle) && InU16(hold)
    ensures StartMovingParams(current, speed, angle, hold, mode, flags).Ok?
    ensures var p := StartMovingParams(current, speed, angle, hold, mode, flags).value;
      && |p| == 16 && p[8] == mode.Code() && p[9] == flags.Code()
      && U16At(p, 0) == current && U16At(p, 2) == speed && U16At(p, 4) == angle && U16At(p, 6) == hold
  {
    var vs := [current, speed, angle, hold];
    StartMovingLayout(current, speed, angle, hold, mode, flags);
    var p := StartMovingParams(current, speed, angle, hold, mode, flags).value;
    forall k | 0 <= k < 4
      ensures U16At(p, 2 * k) == vs[k]
    {
      PairsAt(vs, k);
      assert p[2 * k..2 * k + 2] == Pairs(vs)[2 * k..2 * k + 2];
      U16AtBe16(p, 2 * k, vs[k]);
    }
    assert 2 * 1 == 2 && 2 * 2 == 4 && 2 * 3 == 6;
  }

  function StartMoving(c: Conn, link: Link, current: int, speed: int, angle: int, hold: int,
                       mode: Mode, flags: Flags): Step<()>
    requires Valid(c.info)
  {
    Command(c, link, FeatureId,
            match StartMovingParams(current, speed, angle, hold, mode, flags)
            case Raised(e) => Raised(e)
            case Ok(p) => Ok(Payload(0, p)))
  }

  /** With the default hold time, mode and flags, everything after the angle is zero. */
  lemma {:induction false} StartMovingDefaults(current: int, speed: int, angle: int)
    requires InU16(current) && InU16(speed) && InU16(angle)
    ensures StartMovingParams(current, speed, angle, 0, Normal, NoFlags)
         == Ok(Pairs([current, speed, angle]) + Zeros(10))
  {
    StartMovingLayout(current, speed, angle, 0, Normal, NoFlags);
    assert Pairs([current, speed, angle, 0]) == Pairs([current, speed, angle]) + Pairs([0]) by {
      assert [current, speed, angle, 0] == [current, speed, angle] + [0];
      PairsAppend([current, speed, angle], [0]);
    }
    assert Pairs([0]) == [0, 0] by {
      assert [0][1..] == [];
      Pow2Eight();
    }
    assert Pairs([0]) + [Normal.Code(), NoFlags.Code()] + Zeros(6) == Zeros(10);
    var a := Pairs([current, speed, angle]);
    assert a + Pairs([0]) + [Normal.Code(), NoFlags.Code()] + Zeros(6)
        == a + (Pairs([0]) + [Normal.Code(), NoFlags.Code()] + Zeros(6));
  }
}
