/**
 * Feature 0x0005, DeviceNameType (features/x0005.py): the marketing name,
 * read sixteen characters at a time, and the device type.
 */
module DeviceName {
  import opened Wrappers
  import opened Bits
  import opened IntCodec
  import opened Text
  import opened Frame
  import opened Device
  import opened Connection
  import opened FeatureCall

  const FeatureId := 0x0005

  /** The characters one name request covers. */
  const ChunkSize := 16

  function GetDeviceNameCountRequest(): (q: Payload)
    ensures q.func == 0 && q.params == []
  {
    Payload(0, [])
  }

  /** Request `k` of the name asks for the characters from offset 16k on. */
  function GetDeviceNameRequest(k: int): (q: Payload)
    ensures q.func == 1 && |q.params| == 3
    ensures q.params[0] == ChunkSize * k && q.params[1] == 0 && q.params[2] == 0
  {
    Payload(1, [ChunkSize * k, 0, 0])
  }

  function GetDeviceTypeRequest(): (q: Payload)
    ensures q.func == 2 && q.params == []
  {
    Payload(2, [])
  }

  /** The device type names (`DEVICE_TYPE` in core/utils.py). */
  const DeviceTypes: map<int, string> := map[
    0 := "Keyboard", 1 := "Remote Control", 2 := "Numpad", 3 := "Mouse",
    4 := "Trackpad", 5 := "Trackball", 6 := "Presenter", 7 := "Receiver",
    8 := "Headset", 9 := "Webcam", 10 := "Steering Wheel", 11 := "Joystick",
    12 := "Gamepad", 13 := "Dock", 14 := "Speaker", 15 := "Microphone",
    16 := "Light", 17 := "Programmable controller", 18 := "Car Sim Pedals"]

  /**
   * `get_device_type`'s decoding: the first four params as a little-endian
   * u32, looked up in the table. Fewer than four params decode to 0.
   */
  function ParseDeviceType(p: seq<int>): (r: Result<string>)
    ensures r.Raised? <==> ListToU32Le(Slice(p, 0, 4)) !in DeviceTypes
    ensures r.Raised? ==> r.exc == KeyError
    ensures r.Ok? ==> r.value == DeviceTypes[ListToU32Le(Slice(p, 0, 4))]
  {
    var code := ListToU32Le(Slice(p, 0, 4));
    if code in DeviceTypes then Ok(DeviceTypes[code]) else Raised(KeyError)
  }

  /** The table names every code 0..18 and no other. */
  lemma {:induction false} DeviceTypeCodes(code: int)
    ensures code in DeviceTypes <==> 0 <= code <= 18
  {
  }

  /** A type code sent as a u32 reads back as its name. */
  lemma {:induction false} DeviceTypeRoundTrip(code: int)
    requires code in DeviceTypes
    ensures ParseDeviceType(U32ToListLe(code)) == Ok(DeviceTypes[code])
  {
    U32RoundTrip(code);
    assert Slice(U32ToListLe(code), 0, 4) == U32ToListLe(code);
  }

  /** A reply with fewer than four params reads as a keyboard. */
  lemma {:induction false} ShortTypeReplyIsKeyboard(p: seq<int>)
    requires |p| < 4
    ensures ParseDeviceType(p) == Ok("Keyboard")
  {
  }

  /** `get_device_name_count`: the first param. */
  function ParseNameCount(p: seq<int>): (r: Result<int>)
    ensures r.Raised? <==> |p| == 0
    ensures r.Raised? ==> r.exc == IndexError
    ensures r.Ok? ==> r.value == p[0]
  {
    if |p| == 0 then Raised(IndexError) else Ok(p[0])
  }

  /** `get_device_type`: None without a reply, else the looked-up name. */
  function GetDeviceType(c: Conn, link: Link): (s: Step<Option<string>>)
    requires Valid(c.info)
    ensures Valid(s.conn.info) && s.conn == c.(info := s.conn.info)
    ensures s.out.Raised? ==> s.out.exc in {KeyError, IndexError}
    ensures s.out.Ok? && s.out.value.Some? ==> s.out.value.value in DeviceTypes.Values
  {
    Call(c, link, FeatureId, GetDeviceTypeRequest(), ParseDeviceType)
  }

  /** `get_device_name_count`: None without a reply, else the first param. */
  function GetDeviceNameCount(c: Conn, link: Link): (s: Step<Option<int>>)
    requires Valid(c.info)
    ensures Valid(s.conn.info) && s.conn == c.(info := s.conn.info)
    ensures s.out.Raised? ==> s.out.exc == IndexError
  {
    Call(c, link, FeatureId, GetDeviceNameCountRequest(), ParseNameCount)
  }

  /** How many name requests `range(nameCount // 16 + 1)` makes. */
  function NameRequestCount(nameCount: int): (n: nat)
    ensures nameCount >= 0 ==> n == nameCount / ChunkSize + 1
    ensures nameCount >= 0 ==> n * ChunkSize > nameCount
    ensures nameCount < 0 ==> n == 0
  {
    if nameCount >= 0 then nameCount / ChunkSize + 1 else 0
  }

  /**
   * The name loop from request `k` on, `acc` holding the characters so far.
   * A missing reply ends the whole read with None; a param that is not a
   * code point raises ValueError before the next request.
   */
  function ReadNameChunks(c: Conn, link: Link, k: nat, n: nat, acc: string): (s: Step<Option<string>>)
    requires Valid(c.info)
    ensures Valid(s.conn.info) && s.conn == c.(info := s.conn.info)
    ensures s.out.Raised? ==> s.out.exc in {IndexError, ValueError}
    ensures s.out.Ok? && s.out.value.Some? ==> |s.out.value.value| >= |acc| && s.out.value.value[..|acc|] == acc
    decreases n - k
  {
    if k >= n then Step(c, link, Ok(Some(acc)))
    else
      var f := Call(c, link, FeatureId, GetDeviceNameRequest(k), Chars);
      match f.out
      case Raised(x) => Step(f.conn, f.link, Raised(x))
      case Ok(None) => Step(f.conn, f.link, Ok(None))
      case Ok(Some(chunk)) =>
        var s := ReadNameChunks(f.conn, f.link, k + 1, n, acc + chunk);
        assert (acc + chunk)[..|acc|] == acc;
        s
  }

  /**
   * `get_device_name(nameCount)`: the characters of every reply, in order,
   * with trailing NULs removed.
   */
  function GetDeviceName(c: Conn, link: Link, nameCount: int): (s: Step<Option<string>>)
    requires Valid(c.info)
    ensures Valid(s.conn.info) && s.conn == c.(info := s.conn.info)
    ensures nameCount < 0 ==> s == Step(c, link, Ok(Some("")))
    ensures s.out.Ok? && s.out.value.Some? ==>
      var name := s.out.value.value;
      name == [] || name[|name| - 1] != 0 as char
  {
    var r := ReadNameChunks(c, link, 0, NameRequestCount(nameCount), "");
    match r.out
    case Ok(Some(text)) => Step(r.conn, r.link, Ok(Some(RStripNul(text))))
    case Ok(None) => r
    case Raised(x) => r
  }

  /** The reply a device sends for a name chunk. */
  function NameReply(c: Conn, chunk: seq<int>): (r: Request)
    requires IsEnumerated(c.info, FeatureId)
    ensures Answers(c, FeatureId, r) <==> c.info.features[FeatureId].idx != ErrorFeature
  {
    Request(Some(Long), c.info.subIdx, c.info.features[FeatureId].idx, 1, c.swId, chunk)
  }

  /** The replies a device sends for the chunks, in order. */
  function NameReplies(c: Conn, chunks: seq<seq<int>>): (rs: seq<Option<Request>>)
    requires IsEnumerated(c.info, FeatureId)
    ensures |rs| == |chunks|
  {
    if chunks == [] then [] else [Some(NameReply(c, chunks[0]))] + NameReplies(c, chunks[1..])
  }

  /** All the chunks' bytes in order. */
  function Concat(chunks: seq<seq<int>>): seq<int>
  {
    if chunks == [] then [] else chunks[0] + Concat(chunks[1..])
  }

  lemma {:induction false} ConcatBytes(chunks: seq<seq<int>>)
    requires forall i :: 0 <= i < |chunks| ==> IsBytes(chunks[i])
    ensures IsBytes(Concat(chunks))
    decreases |chunks|
  {
    if chunks != [] {
      ConcatBytes(chunks[1..]);
      assert IsBytes(chunks[0]);
      var p := Concat(chunks);
      forall i | 0 <= i < |p| ensures IsByte(p[i]) {
        if i >= |chunks[0]| {
          assert p[i] == Concat(chunks[1..])[i - |chunks[0]|];
        }
      }
    }
  }

  /** The characters of the chunks, the first chunk's first. */
  lemma {:induction false} CharsOfConcat(acc: string, chunks: seq<seq<int>>)
    requires chunks != [] && forall i :: 0 <= i < |chunks| ==> IsBytes(chunks[i])
    ensures Chars(chunks[0]).Ok? && Chars(Concat(chunks[1..])).Ok? && Chars(Concat(chunks)).Ok?
    ensures acc + Chars(chunks[0]).value + Chars(Concat(chunks[1..])).value == acc + Chars(Concat(chunks)).value
  {
    ConcatBytes(chunks[1..]);
    assert IsBytes(chunks[0]);
    assert Concat(chunks) == chunks[0] + Concat(chunks[1..]);
    CharsAppend(chunks[0], Concat(chunks[1..]));
  }

  lemma {:induction false} CharsAppend(a: seq<int>, b: seq<int>)
    requires IsBytes(a) && IsBytes(b)
    ensures Chars(a).Ok? && Chars(b).Ok? && Chars(a + b).Ok?
    ensures Chars(a + b).value == Chars(a).value + Chars(b).value
  {
    assert IsBytes(a + b);
    var x, y, z := Chars(a).value, Chars(b).value, Chars(a + b).value;
    forall i | 0 <= i < |z| ensures z[i] == (x + y)[i] {
      if i < |a| {
        assert z[i] as int == a[i] == x[i] as int;
      } else {
        assert z[i] as int == b[i - |a|] == y[i - |a|] as int;
      }
    }
  }

  /** One answered name request moves the loop on by one chunk. */
  lemma {:induction false} NameStep(c: Conn, link: Link, k: nat, n: nat, acc: string, chunk: seq<int>)
    requires Valid(c.info) && c.connected && IsEnumerated(c.info, FeatureId)
    requires c.info.features[FeatureId].idx != ErrorFeature
    requires k < n && IsBytes(chunk)
    requires link.replies != [] && link.replies[0] == Some(NameReply(c, chunk))
    ensures Chars(chunk).Ok?
    ensures ReadNameChunks(c, link, k, n, acc)
         == ReadNameChunks(c, Link(link.replies[1..], link.sent + [CallRequest(c, FeatureId, GetDeviceNameRequest(k))]),
                           k + 1, n, acc + Chars(chunk).value)
  {
    CallAnswered(c, link, FeatureId, GetDeviceNameRequest(k), Chars, NameReply(c, chunk));
  }

  /**
   * A device on which the feature is known and which answers every chunk
   * request with bytes: the loop reads the bytes of all the chunks, in
   * order, as characters.
   */
  lemma {:induction false} ChunksReadInOrder(c: Conn, link: Link, k: nat, n: nat, acc: string,
                                             chunks: seq<seq<int>>)
    requires Valid(c.info) && c.connected && IsEnumerated(c.info, FeatureId)
    requires c.info.features[FeatureId].idx != ErrorFeature
    requires k <= n && |chunks| == n - k && |link.replies| >= n - k
    requires forall i :: 0 <= i < |chunks| ==> IsBytes(chunks[i])
    requires link.replies[..|chunks|] == NameReplies(c, chunks)
    ensures Chars(Concat(chunks)).Ok?
    ensures ReadNameChunks(c, link, k, n, acc).out == Ok(Some(acc + Chars(Concat(chunks)).value))
    decreases n - k
  {
    ConcatBytes(chunks);
    if k < n {
      NameRepliesSplit(c, link.replies, chunks);
      NameStep(c, link, k, n, acc, chunks[0]);
      var rest := Link(link.replies[1..], link.sent + [CallRequest(c, FeatureId, GetDeviceNameRequest(k))]);
      ChunksReadInOrder(c, rest, k + 1, n, acc + Chars(chunks[0]).value, chunks[1..]);
      CharsOfConcat(acc, chunks);
    } else {
      assert chunks == [];
      assert acc + Chars(Concat(chunks)).value == acc;
    }
  }

  /** Replies that start with the chunks' replies: the first chunk's, then the others'. */
  lemma {:induction false} NameRepliesSplit(c: Conn, replies: seq<Option<Request>>, chunks: seq<seq<int>>)
    requires IsEnumerated(c.info, FeatureId)
    requires chunks != [] && |replies| >= |chunks| && replies[..|chunks|] == NameReplies(c, chunks)
    ensures replies[0] == Some(NameReply(c, chunks[0]))
    ensures replies[1..][..|chunks| - 1] == NameReplies(c, chunks[1..])
  {
    assert replies[0] == replies[..|chunks|][0];
    assert replies[1..][..|chunks| - 1] == replies[..|chunks|][1..];
  }

  /** So the name is the chunks' characters with the trailing NULs removed. */
  lemma {:induction false} NameFromChunks(c: Conn, link: Link, nameCount: int, chunks: seq<seq<int>>)
    requires Valid(c.info) && c.connected && IsEnumerated(c.info, FeatureId)
    requires c.info.features[FeatureId].idx != ErrorFeature
    requires |chunks| == NameRequestCount(nameCount) && |link.replies| >= |chunks|
    requires forall i :: 0 <= i < |chunks| ==> IsBytes(chunks[i])
    requires link.replies[..|chunks|] == NameReplies(c, chunks)
    ensures Chars(Concat(chunks)).Ok?
    ensures GetDeviceName(c, link, nameCount).out == Ok(Some(RStripNul(Chars(Concat(chunks)).value)))
  {
    ConcatBytes(chunks);
    ChunksReadInOrder(c, link, 0, NameRequestCount(nameCount), "", chunks);
    assert "" + Chars(Concat(chunks)).value == Chars(Concat(chunks)).value;
  }
}
