/**
 * Feature 0x1001, battery voltage (features/x1001.py): the voltage in
 * millivolts from p0 and p1, and status flags packed in p2.
 *
 * The voltage expression `p0 << 0xFF + p1` parses as `p0 << (0xFF + p1)`
 * because `+` binds tighter than `<<`; the big-endian join of the two
 * bytes is `(p0 << 8) + p1`. Both are modelled: `GetBatteryInfo` is the
 * source's, `GetBatteryInfoCorrected` uses the join.
 */
module X1001 {
  import opened Wrappers
  import opened Bits
  import opened Packing
  import opened Frame
  import opened Device
  import opened Connection
  import opened FeatureCall

  const FeatureId := 0x1001

  datatype BatteryInfo = BatteryInfo(voltage: int, external: int, critical: int, slowCharge: int,
                                     fastCharge: int, chargeStatus: int)

  /** `p0 << (0xFF + p1)`: a negative shift count raises ValueError. */
  function VoltageAsWritten(p0: int, p1: int): (r: Result<int>)
    ensures r.Ok? <==> p1 >= -255
    ensures r.Raised? ==> r.exc == ValueError
  {
    if 255 + p1 < 0 then Raised(ValueError) else Ok(ShiftLeft(p0, 255 + p1))
  }

  /** The millivolts as the big-endian join of p0 and p1. */
  function Voltage(p0: int, p1: int): (r: int)
    ensures IsByte(p1) ==> r == 256 * p0 + p1
  {
    HiLo(p0, p1)
  }

  /** A voltage below 2^16 sent high byte first comes back. */
  lemma {:induction false} VoltageRoundTrip(v: int)
    requires 0 <= v < 0x1_0000
    ensures Voltage(Msb(v), Lsb(v)) == v
  {
    HiLoSplit(v);
    DivModUnique(v, 0x1_0000, 0, v);
  }

  lemma {:induction false} Pow2AtLeast(n: nat)
    requires n >= 17
    ensures Pow2(n) >= 0x2_0000
  {
    Pow2Add(17, n - 17);
    Pow2Add(8, 9);
    Pow2Add(8, 1);
    Pow2Eight();
  }

  /**
   * As written, two reply bytes give their big-endian join only when both
   * are zero: any non-zero high byte is shifted past 2^255.
   */
  lemma {:induction false} VoltageAsWrittenIsNotJoin(p0: int, p1: int)
    requires IsByte(p0) && IsByte(p1)
    ensures VoltageAsWritten(p0, p1) == Ok(Voltage(p0, p1)) <==> p0 == 0 && p1 == 0
    ensures p0 > 0 ==> VoltageAsWritten(p0, p1).value >= 0x2_0000
  {
    if p0 > 0 {
      Pow2AtLeast(255 + p1);
      MulMono(1, p0, Pow2(255 + p1));
    }
  }

  /** 4000 mV arrives as 0x0F, 0xA0; as written it reads as 15 * 2^415. */
  lemma {:induction false} FourThousandMillivolts()
    ensures Voltage(0x0F, 0xA0) == 4000
    ensures VoltageAsWritten(0x0F, 0xA0) == Ok(15 * Pow2(415))
  {
  }

  /** The flags of p2: bits 7, 5, 4 and 3, and the low three bits. */
  function Flags(b: int, voltage: int): (r: BatteryInfo)
    ensures r.voltage == voltage
    ensures r.external == BitAt(b, 7) && r.critical == BitAt(b, 5)
    ensures r.slowCharge == BitAt(b, 4) && r.fastCharge == BitAt(b, 3) && r.chargeStatus == LowBits(b, 3)
  {
    BatteryInfo(voltage, BitAt(b, 7), BitAt(b, 5), BitAt(b, 4), BitAt(b, 3), LowBits(b, 3))
  }

  /** The byte of a set of flags, each 0 or 1, and a status below 8. */
  function FlagsByte(external: int, critical: int, slow: int, fast: int, status: int): int
  {
    128 * external + 32 * critical + 16 * slow + 8 * fast + status
  }

  predicate IsBit(x: int) { x == 0 || x == 1 }

  /** A bit with `lo` below it and `hi` above it is read back by `BitAt`. */
  lemma {:induction false} BitOfField(b: int, k: nat, w: int, hi: int, bit: int, lo: int)
    requires w == Pow2(k) && IsBit(bit) && 0 <= lo < w
    requires b == 2 * hi * w + bit * w + lo
    ensures BitAt(b, k) == bit
  {
    DivModUnique(b, w, 2 * hi + bit, lo);
    DivModUnique(2 * hi + bit, 2, hi, bit);
  }

  lemma {:induction false} FlagWeights()
    ensures Pow2(3) == 8 && Pow2(4) == 16 && Pow2(5) == 32 && Pow2(7) == 128
  {
    assert Pow2(3) == 8;
    assert Pow2(5) == 32;
  }

  /** Each flag is read back from its bit. */
  lemma {:induction false} FlagsRoundTrip(external: int, critical: int, slow: int, fast: int, status: int)
    requires IsBit(external) && IsBit(critical) && IsBit(slow) && IsBit(fast) && 0 <= status < 8
    ensures Flags(FlagsByte(external, critical, slow, fast, status), 0)
         == BatteryInfo(0, external, critical, slow, fast, status)
  {
    var b := FlagsByte(external, critical, slow, fast, status);
    FlagWeights();
    BitOfField(b, 7, 128, 0, external, 32 * critical + 16 * slow + 8 * fast + status);
    BitOfField(b, 5, 32, 2 * external, critical, 16 * slow + 8 * fast + status);
    BitOfField(b, 4, 16, 4 * external + critical, slow, 8 * fast + status);
    BitOfField(b, 3, 8, 8 * external + 2 * critical + slow, fast, status);
    DivModUnique(b, 8, 16 * external + 4 * critical + 2 * slow + fast, status);
  }

  /** `get_battery_info` as written: IndexError below three params. */
  function ParseInfoAsWritten(p: seq<int>): (r: Result<BatteryInfo>)
    ensures |p| < 2 ==> r == Raised(IndexError)
    ensures r.Ok? ==> |p| >= 3 && VoltageAsWritten(p[0], p[1]).Ok?
                      && r.value == Flags(p[2], VoltageAsWritten(p[0], p[1]).value)
  {
    if |p| < 2 then Raised(IndexError)
    else
      match VoltageAsWritten(p[0], p[1])
      case Raised(e) => Raised(e)
      case Ok(v) => if |p| < 3 then Raised(IndexError) else Ok(Flags(p[2], v))
  }

  /** `get_battery_info` with the voltage joined from p0 and p1. */
  function ParseInfo(p: seq<int>): (r: Result<BatteryInfo>)
    ensures r.Ok? <==> |p| >= 3
    ensures r.Raised? ==> r.exc == IndexError
    ensures r.Ok? ==> r.value == Flags(p[2], Voltage(p[0], p[1]))
  {
    if |p| < 3 then Raised(IndexError) else Ok(Flags(p[2], Voltage(p[0], p[1])))
  }

  /** A reply carrying a voltage and a flags byte is read back in full. */
  lemma {:induction false} InfoRoundTrip(v: int, external: int, critical: int, slow: int, fast: int, status: int, rest: seq<int>)
    requires 0 <= v < 0x1_0000
    requires IsBit(external) && IsBit(critical) && IsBit(slow) && IsBit(fast) && 0 <= status < 8
    ensures ParseInfo([Msb(v), Lsb(v), FlagsByte(external, critical, slow, fast, status)] + rest)
         == Ok(BatteryInfo(v, external, critical, slow, fast, status))
  {
    VoltageRoundTrip(v);
    FlagsRoundTrip(external, critical, slow, fast, status);
  }

  /**
   * `get_battery_info` as written: on a known feature the one request sent
   * is function 0 without params, and a device reporting a non-zero high
   * voltage byte is read as at least 2^17 mV.
   */
  function GetBatteryInfo(c: Conn, link: Link): (s: Step<Option<BatteryInfo>>)
    requires Valid(c.info)
    ensures !c.connected ==> s == Step(c, link, Ok(None))
    ensures c.connected && IsEnumerated(c.info, FeatureId) ==>
      s.conn == c && s.link.sent == link.sent + [CallRequest(c, FeatureId, Payload(0, []))]
  {
    if c.connected && IsEnumerated(c.info, FeatureId) then
      CallSendsOneRequest(c, link, FeatureId, Payload(0, []), ParseInfoAsWritten);
      Call(c, link, FeatureId, Payload(0, []), ParseInfoAsWritten)
    else Call(c, link, FeatureId, Payload(0, []), ParseInfoAsWritten)
  }

  /** `get_battery_info` with the voltage joined from p0 and p1. */
  function GetBatteryInfoCorrected(c: Conn, link: Link): (s: Step<Option<BatteryInfo>>)
    requires Valid(c.info)
    ensures !c.connected ==> s == Step(c, link, Ok(None))
    ensures c.connected && IsEnumerated(c.info, FeatureId) ==>
      s.conn == c && s.link.sent == link.sent + [CallRequest(c, FeatureId, Payload(0, []))]
  {
    if c.connected && IsEnumerated(c.info, FeatureId) then
      CallSendsOneRequest(c, link, FeatureId, Payload(0, []), ParseInfo);
      Call(c, link, FeatureId, Payload(0, []), ParseInfo)
    else Call(c, link, FeatureId, Payload(0, []), ParseInfo)
  }

  /**
   * As written, a device answering with a non-zero high voltage byte gives
   * a voltage of at least 2^17 mV, never the join of the two bytes.
   */
  lemma {:induction false} GetBatteryInfoAnswered(c: Conn, link: Link, r: Request)
    requires Valid(c.info) && c.connected && IsEnumerated(c.info, FeatureId)
    requires link.replies != [] && link.replies[0] == Some(r) && Answers(c, FeatureId, r)
    requires |r.params| >= 3 && IsBytes(r.params) && r.params[0] > 0
    ensures var o := GetBatteryInfo(c, link).out;
      o.Ok? && o.value.Some? && o.value.value.voltage >= 0x2_0000
      && o.value.value.voltage != Voltage(r.params[0], r.params[1])
  {
    CallAnswered(c, link, FeatureId, Payload(0, []), ParseInfoAsWritten, r);
    VoltageAsWrittenIsNotJoin(r.params[0], r.params[1]);
  }

  /** With the join, a device reporting a voltage and flags is read back in full. */
  lemma {:induction false} GetBatteryInfoAnsweredCorrected(c: Conn, link: Link, r: Request, v: int, external: int, critical: int, slow: int, fast: int, status: int, rest: seq<int>)
    requires Valid(c.info) && c.connected && IsEnumerated(c.info, FeatureId)
    requires link.replies != [] && link.replies[0] == Some(r) && Answers(c, FeatureId, r)
    requires 0 <= v < 0x1_0000
    requires IsBit(external) && IsBit(critical) && IsBit(slow) && IsBit(fast) && 0 <= status < 8
    requires r.params == [Msb(v), Lsb(v), FlagsByte(external, critical, slow, fast, status)] + rest
    ensures GetBatteryInfoCorrected(c, link).out == Ok(Some(BatteryInfo(v, external, critical, slow, fast, status)))
  {
    CallAnswered(c, link, FeatureId, Payload(0, []), ParseInfo, r);
    InfoRoundTrip(v, external, critical, slow, fast, status, rest);
  }

  /** `get_battery_info` gives None when no accepted reply comes. */
  lemma {:induction false} GetBatteryInfoUnanswered(c: Conn, link: Link)
    requires Valid(c.info) && c.connected && IsEnumerated(c.info, FeatureId)
    requires link.replies == [] || link.replies[0].None? || !Answers(c, FeatureId, link.replies[0].value)
    ensures GetBatteryInfo(c, link).out == Ok(None)
  {
    CallUnanswered(c, link, FeatureId, Payload(0, []), ParseInfoAsWritten);
  }
}
