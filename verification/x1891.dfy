/**
 * Feature 0x1891, radio test modes (features/x1891.py): periodic message
 * transmission and reception to a 40-bit address, continuous-wave
 * transmission and reception, and channel sweeps. Addresses go out most
 * significant byte first, 16-bit counters and timeouts high byte first.
 */
module X1891 {
  import opened Wrappers
  import opened Bits
  import opened Packing
  import opened Frame
  import opened Device
  import opened Connection
  import opened FeatureCall

  const FeatureId := 0x1891

  /** The bytes of a radio address. */
  const AddressLength := 5

  /** `(a >> 8k) & 0xFF`. */
  function ByteAt(a: int, k: nat): (r: int)
    ensures IsByte(r)
  {
    LowByte(ShiftRight(a, 8 * k))
  }

  /** The low n bytes of a, most significant first. */
  function BytesBe(a: int, n: nat): (r: seq<int>)
    ensures |r| == n && IsBytes(r)
    ensures forall i :: 0 <= i < n ==> r[i] == ByteAt(a, n - 1 - i)
  {
    seq(n, i requires 0 <= i < n => ByteAt(a, n - 1 - i))
  }

  /** The big-endian number a byte list spells. */
  function JoinBe(s: seq<int>): int
  {
    if s == [] then 0 else 256 * JoinBe(s[..|s| - 1]) + s[|s| - 1]
  }

  lemma {:induction false} Distribute(b: int, c: int, q: int, r: int)
    ensures b * (c * q + r) == (b * c) * q + b * r
  {
  }

  lemma {:induction false} DivDiv(a: int, b: int, c: int)
    requires b > 0 && c > 0
    ensures a / (b * c) == (a / b) / c
  {
    var x, m := a / b, a % b;
    var q, r := x / c, x % c;
    assert a == b * x + m;
    assert x == c * q + r;
    Distribute(b, c, q, r);
    MulMono(r, c - 1, b);
    assert r * b <= (c - 1) * b;
    assert (c - 1) * b == b * c - b;
    DivModUnique(a, b * c, q, b * r + m);
  }

  lemma {:induction false} ModSplit(a: int, m: int)
    requires m > 0
    ensures 256 * ((a / 256) % m) + a % 256 == a % (256 * m)
  {
    var q := (a / 256) / m;
    var r := (a / 256) % m;
    assert a / 256 == m * q + r;
    assert a == (256 * m) * q + (256 * r + a % 256);
    assert 256 * r <= 256 * (m - 1);
    DivModUnique(a, 256 * m, q, 256 * r + a % 256);
  }

  /** The byte k+1 places up is byte k of the value shifted down one byte. */
  lemma {:induction false} ByteAtNext(a: int, k: nat)
    ensures ByteAt(a, k + 1) == ByteAt(ShiftRight(a, 8), k)
  {
    Pow2Add(8, 8 * k);
    Pow2Eight();
    DivDiv(a, Pow2(8), Pow2(8 * k));
  }

  /** Splitting into n bytes and joining them keeps a modulo 2^(8n). */
  lemma {:induction false} JoinBytesBe(a: int, n: nat)
    ensures JoinBe(BytesBe(a, n)) == a % Pow2(8 * n)
    decreases n
  {
    if n > 0 {
      var s := BytesBe(a, n);
      var a' := ShiftRight(a, 8);
      Pow2Eight();
      forall i | 0 <= i < n - 1
        ensures s[i] == BytesBe(a', n - 1)[i]
      {
        ByteAtNext(a, n - 2 - i);
      }
      assert s[..n - 1] == BytesBe(a', n - 1);
      JoinBytesBe(a', n - 1);
      Pow2Add(8, 8 * (n - 1));
      ModSplit(a, Pow2(8 * (n - 1)));
    }
  }

  /** The address bytes of lines 9 to 13: bits 39..32 first, bits 7..0 last. */
  function AddressBytes(address: int): (r: seq<int>)
    ensures |r| == AddressLength && IsBytes(r)
    ensures r == [ByteAt(address, 4), ByteAt(address, 3), ByteAt(address, 2), ByteAt(address, 1), ByteAt(address, 0)]
  {
    BytesBe(address, AddressLength)
  }

  /** The address bytes spell the address modulo 2^40. */
  lemma {:induction false} AddressRoundTrip(address: int)
    ensures JoinBe(AddressBytes(address)) == address % Pow2(40)
  {
    JoinBytesBe(address, AddressLength);
  }

  /** `RFSendPeriodicMsg` and `RFSendPeriodicMsgNoAck`: 13 params. */
  function PeriodicMsgParams(address: int, channel: int, power: int, period: int, condition: int,
                             count: int, radioMode: int, payloadSize: int): (p: seq<int>)
    ensures |p| == 13 && p[..5] == AddressBytes(address)
    ensures p[5..9] == [channel, power, period, condition] && p[11..] == [radioMode, payloadSize]
    ensures IsBytes(p[9..11]) && HiLo(p[9], p[10]) == count % 0x1_0000
  {
    HiLoSplit(count);
    var p := AddressBytes(address) + [channel, power, period, condition] + Be16(count) + [radioMode, payloadSize];
    assert p[..5] == AddressBytes(address);
    p
  }

  /** `RFTxCW` and `RFRxContinuous`: channel, power, timeout high byte first, condition, radio mode. */
  function ContinuousParams(channel: int, power: int, timeout: int, condition: int, radioMode: int): (p: seq<int>)
    ensures |p| == 6 && p[..2] == [channel, power] && p[4..] == [condition, radioMode]
    ensures IsBytes(p[2..4]) && HiLo(p[2], p[3]) == timeout % 0x1_0000
  {
    HiLoSplit(timeout);
    [channel, power] + Be16(timeout) + [condition, radioMode]
  }

  /** The sweeps: six settings, then the sweep count at bytes 6 and 7. */
  function SweepParams(channelMin: int, channelMax: int, power: int, period: int, condition: int,
                       radioMode: int, sweeps: int): (p: seq<int>)
    ensures |p| == 8 && p[..6] == [channelMin, channelMax, power, period, condition, radioMode]
    ensures IsBytes(p[6..]) && HiLo(p[6], p[7]) == sweeps % 0x1_0000
  {
    HiLoSplit(sweeps);
    [channelMin, channelMax, power, period, condition, radioMode] + Be16(sweeps)
  }

  /** `RFReceivePeriodicMsg`: the address, three settings, the timeout at bytes 8 and 9, the radio mode. */
  function ReceiveParams(address: int, channel: int, power: int, condition: int, timeout: int, radioMode: int)
    : (p: seq<int>)
    ensures |p| == 11 && p[..5] == AddressBytes(address)
    ensures p[5..8] == [channel, power, condition] && p[10] == radioMode
    ensures IsBytes(p[8..10]) && HiLo(p[8], p[9]) == timeout % 0x1_0000
  {
    HiLoSplit(timeout);
    var p := AddressBytes(address) + [channel, power, condition] + Be16(timeout) + [radioMode];
    assert p[..5] == AddressBytes(address);
    p
  }

  /** Byte values at most 255 for each setting, and a counter below 2^16, are read back in full. */
  lemma {:induction false} PeriodicMsgRoundTrip(address: int, channel: int, power: int, period: int, condition: int,
                             count: int, radioMode: int, payloadSize: int)
    requires 0 <= address < Pow2(40) && 0 <= count < 0x1_0000
    ensures var p := PeriodicMsgParams(address, channel, power, period, condition, count, radioMode, payloadSize);
      JoinBe(p[..5]) == address && HiLo(p[9], p[10]) == count
  {
    var p := PeriodicMsgParams(address, channel, power, period, condition, count, radioMode, payloadSize);
    assert JoinBe(p[..5]) == address % Pow2(40) by {
      AddressRoundTrip(address);
    }
    DivModUnique(address, Pow2(40), 0, address);
    DivModUnique(count, 0x1_0000, 0, count);
  }

  // -------------------------------------------------------- device calls

  /** Function 0 returns the reply's params; no reply makes `.params` raise AttributeError. */
  function SendPeriodicMsg(c: Conn, link: Link, address: int, channel: int, power: int, period: int,
                           condition: int, count: int, radioMode: int, payloadSize: int): Step<seq<int>>
    requires Valid(c.info)
  {
    CallStrict(c, link, FeatureId,
               Payload(0, PeriodicMsgParams(address, channel, power, period, condition, count, radioMode, payloadSize)),
               p => Ok(p))
  }

  function TxCw(c: Conn, link: Link, channel: int, power: int, timeout: int, condition: int, radioMode: int)
    : Step<()>
    requires Valid(c.info)
  {
    Command(c, link, FeatureId, Ok(Payload(1, ContinuousParams(channel, power, timeout, condition, radioMode))))
  }

  function RxContinuous(c: Conn, link: Link, channel: int, power: int, timeout: int, condition: int, radioMode: int)
    : Step<()>
    requires Valid(c.info)
  {
    Command(c, link, FeatureId, Ok(Payload(2, ContinuousParams(channel, power, timeout, condition, radioMode))))
  }

  function TxCwSweep(c: Conn, link: Link, channelMin: int, channelMax: int, power: int, period: int,
                     condition: int, radioMode: int, sweeps: int): Step<()>
    requires Valid(c.info)
  {
    Command(c, link, FeatureId,
            Ok(Payload(3, SweepParams(channelMin, channelMax, power, period, condition, radioMode, sweeps))))
  }

  function RxContinuousSweep(c: Conn, link: Link, channelMin: int, channelMax: int, power: int, period: int,
                             condition: int, radioMode: int, sweeps: int): Step<()>
    requires Valid(c.info)
  {
    Command(c, link, FeatureId,
            Ok(Payload(4, SweepParams(channelMin, channelMax, power, period, condition, radioMode, sweeps))))
  }

  function SendPeriodicMsgNoAck(c: Conn, link: Link, address: int, channel: int, power: int, period: int,
                                condition: int, count: int, radioMode: int, payloadSize: int): Step<()>
    requires Valid(c.info)
  {
    Command(c, link, FeatureId,
            Ok(Payload(5, PeriodicMsgParams(address, channel, power, period, condition, count, radioMode, payloadSize))))
  }

  function ReceivePeriodicMsg(c: Conn, link: Link, address: int, channel: int, power: int, condition: int,
                              timeout: int, radioMode: int): Step<()>
    requires Valid(c.info)
  {
    Command(c, link, FeatureId, Ok(Payload(6, ReceiveParams(address, channel, power, condition, timeout, radioMode))))
  }

  /** On a known feature, function 0 sends the 13 params and hands back the reply's params as they are. */
  lemma {:induction false} SendPeriodicMsgAnswered(c: Conn, link: Link, r: Request, address: int, channel: int, power: int, period: int,
                                condition: int, count: int, radioMode: int, payloadSize: int)
    requires Valid(c.info) && c.connected && IsEnumerated(c.info, FeatureId)
    requires link.replies != [] && link.replies[0] == Some(r) && Answers(c, FeatureId, r)
    ensures var s := SendPeriodicMsg(c, link, address, channel, power, period, condition, count, radioMode, payloadSize);
      && s.out == Ok(r.params)
      && s.link.sent == link.sent + [CallRequest(c, FeatureId,
           Payload(0, PeriodicMsgParams(address, channel, power, period, condition, count, radioMode, payloadSize)))]
  {
    CallStrictAnswered(c, link, FeatureId,
      Payload(0, PeriodicMsgParams(address, channel, power, period, condition, count, radioMode, payloadSize)),
      p => Ok(p), r);
  }

  /** Without an accepted reply, function 0's `.params` raises AttributeError. */
  lemma {:induction false} SendPeriodicMsgUnanswered(c: Conn, link: Link, address: int, channel: int, power: int, period: int,
                                  condition: int, count: int, radioMode: int, payloadSize: int)
    requires Valid(c.info) && c.connected && IsEnumerated(c.info, FeatureId)
    requires link.replies == [] || link.replies[0].None? || !Answers(c, FeatureId, link.replies[0].value)
    ensures SendPeriodicMsg(c, link, address, channel, power, period, condition, count, radioMode, payloadSize).out
         == Raised(AttributeError)
  {
    CallUnanswered(c, link, FeatureId,
      Payload(0, PeriodicMsgParams(address, channel, power, period, condition, count, radioMode, payloadSize)),
      p => Ok(p));
  }
}
