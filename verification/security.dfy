/**
 * The security manager (security/security_manager.py): the decisions that
 * unlock a protected device for manufacturing. The device's answers are
 * inputs (a `Device` record), the password file is a `Vault` of the
 * passwords it decrypts to, and every call made on the device is logged.
 */
module Security {
  import opened Wrappers
  import opened Bits

  /** Feature 0x1E02, whose presence marks a protected device. */
  const ProtectionFeature := 0x1E02
  /** The one authentication feature the manager supports. */
  const Auth1602 := 0x1602

  const ComplSessionName := "x1E02_Compl"
  const ManufSessionName := "x1E02_Manuf"
  /** The firmware name the compliance mode uses instead of the active one. */
  const ComplianceFwName := "Compliance"

  /** A call made on the device, in the order made. */
  datatype Call =
    | EnableHiddenFeatures
    | Enumerate(featureId: int)
    | GetReactInfo
    | LookUpActiveFw
    | StartSession(name: seq<int>)
    | Passwd0(password: seq<int>)
    | EndSession(name: seq<int>)
    | EnableFeatures(bitmap: int)
    | DisableFeatures(bitmap: int)
    | GetInfo

  /**
   * What reading one entity's firmware through 0x0003 gives: whether it is
   * active and its name, None without a reply, or the exception decoding
   * the reply raises.
   */
  type FwAnswer = Result<Option<(bool, string)>>

  /**
   * What the device answers: whether features enumerate, the
   * authentication feature `get_react_info` reports (None without a reply),
   * the entity count of the identity read (None without a reply, or the
   * exception decoding it raises), the firmware answer of each entity in
   * order, whether each session request gets a reply, and the `get_info`
   * triple (None without a reply).
   */
  datatype Device = Device(
    has1E02: bool,
    reactInfo: Option<int>,
    hasAuthFeature: bool,
    entityCount: Result<Option<int>>,
    firmware: seq<FwAnswer>,
    startReplies: bool,
    passwdReplies: bool,
    endReplies: bool,
    enableReplies: bool,
    info: Option<(int, int, int)>)

  /** The decrypted passwords of the password file, by firmware name and session name. */
  type Vault = map<(string, string), seq<int>>

  /**
   * The manager's state. `authFeatureIndex` holds Python's value: -1 at
   * first, None when the reported feature is missing or unreported.
   */
  datatype Manager = Manager(
    authenticated: bool,
    vault: Vault,
    fwName: string,
    authFeatureIndex: Option<int>,
    deviceProtected: bool,
    sessionName: string,
    sessionNameBytes: seq<int>,
    sessionPwd: Option<seq<int>>)

  /** An operation's outcome: the new state, the calls it made and its result. */
  datatype Out<T> = Out(m: Manager, calls: seq<Call>, res: Result<T>)

  /**
   * `SecurityManager(hidpp, file)`: the user counts as authenticated when
   * the password file exists; nothing is known about the device yet.
   */
  function NewManager(fileExists: bool, vault: Vault): (m: Manager)
    ensures m.authenticated == fileExists
    ensures !m.deviceProtected && m.authFeatureIndex == Some(-1)
    ensures m.sessionName == [] && m.sessionNameBytes == [] && m.sessionPwd.None? && m.fwName == []
  {
    Manager(fileExists, vault, "", Some(-1), false, "", [], None)
  }

  /** `set_session_name(name)`: the name and the code points of its characters. */
  function SetSessionName(m: Manager, name: string): (r: Manager)
    ensures r.sessionName == name && |r.sessionNameBytes| == |name|
    ensures forall i :: 0 <= i < |name| ==> r.sessionNameBytes[i] == name[i] as int
    ensures r == m.(sessionName := r.sessionName, sessionNameBytes := r.sessionNameBytes)
  {
    m.(sessionName := name, sessionNameBytes := seq(|name|, i requires 0 <= i < |name| => name[i] as int))
  }

  /** The characters back from their code points. */
  function FromCodePoints(b: seq<int>): (s: string)
    requires forall i :: 0 <= i < |b| ==> 0 <= b[i] < 0xD800
    ensures |s| == |b|
  {
    seq(|b|, i requires 0 <= i < |b| => b[i] as char)
  }

  /** The session name can be read back from the bytes sent for it. */
  lemma {:induction false} SessionNameBytesRoundTrip(m: Manager, name: string)
    requires forall i :: 0 <= i < |name| ==> name[i] as int < 0xD800
    ensures var b := SetSessionName(m, name).sessionNameBytes;
      (forall i :: 0 <= i < |b| ==> 0 <= b[i] < 0xD800) && FromCodePoints(b) == name
  {
    var b := SetSessionName(m, name).sessionNameBytes;
    assert forall i :: 0 <= i < |b| ==> b[i] == name[i] as int;
    assert FromCodePoints(b) == name;
  }

  /**
   * `fetch_manuf()`: for an authenticated user, the password of the active
   * firmware and session; an entry missing from the file raises KeyError,
   * and an empty password is not kept.
   */
  function FetchManuf(m: Manager): (r: Result<Manager>)
    ensures !m.authenticated ==> r == Ok(m)
    ensures r.Raised? <==> m.authenticated && (m.fwName, m.sessionName) !in m.vault
    ensures r.Raised? ==> r.exc == KeyError
    ensures r.Ok? ==> r.value == m.(sessionPwd := r.value.sessionPwd)
    ensures r.Ok? && r.value.sessionPwd != m.sessionPwd ==>
      r.value.sessionPwd == Some(m.vault[(m.fwName, m.sessionName)]) && m.vault[(m.fwName, m.sessionName)] != []
  {
    if !m.authenticated then Ok(m)
    else if (m.fwName, m.sessionName) !in m.vault then Raised(KeyError)
    else
      var pwd := m.vault[(m.fwName, m.sessionName)];
      if pwd != [] then Ok(m.(sessionPwd := Some(pwd))) else Ok(m)
  }

  /** Python truthiness of the index: None and 0 are false. */
  predicate Truthy(x: Option<int>) { x.Some? && x.value != 0 }

  /**
   * `get_authentification_feature_index()`: 0x1E02 decides whether the
   * device is protected; if so, the reported authentication feature is
   * kept when it enumerates, and replaced by None when it does not.
   */
  function GetAuthFeatureIndex(m: Manager, d: Device): (r: Out<()>)
    ensures r.res == Ok(())
    ensures r.m.deviceProtected == d.has1E02
    ensures r.m == m.(deviceProtected := r.m.deviceProtected, authFeatureIndex := r.m.authFeatureIndex)
    ensures !d.has1E02 ==> r.m.authFeatureIndex == m.authFeatureIndex && r.calls == [Enumerate(ProtectionFeature)]
    ensures d.has1E02 ==> r.m.authFeatureIndex == (if Truthy(d.reactInfo) && !d.hasAuthFeature then None else d.reactInfo)
    ensures Enumerate(Auth1602) in r.calls <==> d.has1E02 && d.reactInfo == Some(Auth1602)
  {
    var m1 := m.(deviceProtected := d.has1E02);
    if !d.has1E02 then Out(m1, [Enumerate(ProtectionFeature)], Ok(()))
    else
      var idx := d.reactInfo;
      if Truthy(idx) then
        var kept := if d.hasAuthFeature then idx else None;
        Out(m1.(authFeatureIndex := kept), [Enumerate(ProtectionFeature), GetReactInfo, Enumerate(idx.value)], Ok(()))
      else Out(m1.(authFeatureIndex := idx), [Enumerate(ProtectionFeature), GetReactInfo], Ok(()))
  }

  /**
   * `open1602()`: start a session with the session name, then send the
   * password; a missing reply to either fails the opening. Without a
   * fetched password, `passwd0(None)` reaches `len(params)` in the generic
   * request (features/feature.py:43) and raises TypeError before sending.
   */
  function Open1602(m: Manager, d: Device): (r: Out<bool>)
    ensures r.m == m
    ensures (StartSession(m.sessionNameBytes) in r.calls) == m.authenticated
    ensures r.res.Raised? <==> m.authenticated && d.startReplies && m.sessionPwd.None?
    ensures r.res.Raised? ==> r.res.exc == TypeError
    ensures r.res.Ok? ==> (r.res.value <==> m.authenticated && d.startReplies && d.passwdReplies)
    ensures forall k :: 0 <= k < |r.calls| && r.calls[k].Passwd0? ==>
      m.authenticated && d.startReplies && m.sessionPwd == Some(r.calls[k].password)
    ensures m.sessionPwd.Some? ==> (Passwd0(m.sessionPwd.value) in r.calls <==> m.authenticated && d.startReplies)
  {
    if !m.authenticated then Out(m, [], Ok(false))
    else if !d.startReplies then Out(m, [StartSession(m.sessionNameBytes)], Ok(false))
    else
      match m.sessionPwd
      case None => Out(m, [StartSession(m.sessionNameBytes)], Raised(TypeError))
      case Some(pwd) => Out(m, [StartSession(m.sessionNameBytes), Passwd0(pwd)], Ok(d.passwdReplies))
  }

  /**
   * `open()`: an unprotected device is open at once; a protected one needs
   * an authenticated user and the 0x1602 authentication feature.
   */
  function Open(m: Manager, d: Device): (r: Out<bool>)
    ensures r.m == m
    ensures !m.deviceProtected ==> r.res == Ok(true) && r.calls == []
    ensures r.res.Raised? <==>
      m.deviceProtected && m.authenticated && m.authFeatureIndex == Some(Auth1602) && d.startReplies && m.sessionPwd.None?
    ensures r.res.Raised? ==> r.res.exc == TypeError
    ensures m.deviceProtected && r.res.Ok? ==>
      (r.res.value <==> m.authenticated && m.authFeatureIndex == Some(Auth1602) && d.startReplies && d.passwdReplies)
  {
    if !m.deviceProtected then Out(m, [], Ok(true))
    else if !m.authenticated then Out(m, [], Ok(false))
    else if m.authFeatureIndex != Some(Auth1602) then Out(m, [], Ok(false))
    else Open1602(m, d)
  }

  /** A session is started only on a protected device, for an authenticated user, through 0x1602. */
  lemma {:induction false} OpenStartsSessionOnlyWhenAllowed(m: Manager, d: Device)
    ensures StartSession(m.sessionNameBytes) in Open(m, d).calls <==>
      m.deviceProtected && m.authenticated && m.authFeatureIndex == Some(Auth1602)
  {
    if m.deviceProtected && m.authenticated && m.authFeatureIndex == Some(Auth1602) {
      assert Open(m, d).calls[0] == StartSession(m.sessionNameBytes);
    }
  }

  /** What `close()` returns: a decision, or the reply to ending the session. */
  datatype Closed = Decided(ok: bool) | EndReply(present: bool)

  /** `close1602()`: end the session; the reply itself is the result. */
  function Close1602(m: Manager, d: Device): (r: Out<Closed>)
    ensures r.m == m && r.res.Ok?
    ensures !m.authenticated ==> r.res.value == Decided(false) && r.calls == []
    ensures m.authenticated ==> r.res.value == EndReply(d.endReplies) && r.calls == [EndSession(m.sessionNameBytes)]
  {
    if !m.authenticated then Out(m, [], Ok(Decided(false)))
    else Out(m, [EndSession(m.sessionNameBytes)], Ok(EndReply(d.endReplies)))
  }

  /**
   * `close()`: the same decisions as `open()`, but protection is checked
   * again by enumerating 0x1E02 instead of using the stored flag.
   */
  function Close(m: Manager, d: Device): (r: Out<Closed>)
    ensures r.m == m && r.res.Ok?
    ensures |r.calls| >= 1 && r.calls[0] == Enumerate(ProtectionFeature)
    ensures !d.has1E02 ==> r.res.value == Decided(true)
  {
    var probe := [Enumerate(ProtectionFeature)];
    if !d.has1E02 then Out(m, probe, Ok(Decided(true)))
    else if !m.authenticated then Out(m, probe, Ok(Decided(false)))
    else if m.authFeatureIndex != Some(Auth1602) then Out(m, probe, Ok(Decided(false)))
    else
      var c := Close1602(m, d);
      Out(m, probe + c.calls, c.res)
  }

  /**
   * Close decides as open does once the device's protection is what the
   * manager stored: both succeed outright on an unprotected device, both
   * refuse without authentication or without 0x1602, and otherwise both go
   * to the session calls.
   */
  lemma {:induction false} CloseMirrorsOpen(m: Manager, d: Device)
    requires d.has1E02 == m.deviceProtected
    ensures Close(m, d).res == Ok(Decided(true)) <==> !m.deviceProtected
    ensures Close(m, d).res == Ok(Decided(false)) <==> (Open(m, d).calls == [] && Open(m, d).res == Ok(false))
    ensures Close(m, d).res.value.EndReply? <==> StartSession(m.sessionNameBytes) in Open(m, d).calls
  {
    OpenStartsSessionOnlyWhenAllowed(m, d);
  }

  /** The feature bit a session unlocks: 2 for compliance, 1 for manufacturing, none otherwise. */
  function SessionBitfield(name: string): (b: int)
    ensures b == 0 || b == 1 || b == 2
    ensures b != 0 <==> name == ComplSessionName || name == ManufSessionName
  {
    if name == ComplSessionName then 2 else if name == ManufSessionName then 1 else 0
  }

  /** Python `state & bitfield` is non-zero, for the bitfields a session can have. */
  predicate AnySet(state: int, bitfield: int)
  {
    (bitfield == 1 && BitAt(state, 0) == 1) || (bitfield == 2 && BitAt(state, 1) == 1)
  }

  /** What `enable_deactivatable_features` returns: the flag, or -1 without a reply. */
  datatype Enabled = Flag(on: bool) | NoStatus

  /**
   * `enable_deactivatable_features()`: enable the session's bit, then read
   * the state; no `get_info` reply cannot be unpacked and raises TypeError;
   * otherwise the result is whether the state has the bit, or -1 when the
   * enable request had no reply.
   */
  function EnableDeactivatableFeatures(m: Manager, d: Device): (r: Out<Enabled>)
    ensures r.m == m
    ensures r.calls == [EnableFeatures(SessionBitfield(m.sessionName)), GetInfo]
    ensures r.res.Raised? <==> d.info.None?
    ensures r.res.Raised? ==> r.res.exc == TypeError
    ensures r.res.Ok? && !d.enableReplies ==> r.res.value == NoStatus
    ensures r.res == Ok(Flag(true)) ==> SessionBitfield(m.sessionName) != 0
  {
    var bitfield := SessionBitfield(m.sessionName);
    var calls := [EnableFeatures(bitfield), GetInfo];
    match d.info
    case None => Out(m, calls, Raised(TypeError))
    case Some(info) =>
      if d.enableReplies then Out(m, calls, Ok(Flag(AnySet(info.2, bitfield))))
      else Out(m, calls, Ok(NoStatus))
  }

  /** An enabling reports success exactly when the state byte has the session's bit. */
  lemma {:induction false} EnableReportsSessionBit(m: Manager, d: Device, support: int, persist: int, state: int)
    requires d.info == Some((support, persist, state)) && d.enableReplies
    ensures EnableDeactivatableFeatures(m, d).res.Ok?
    ensures EnableDeactivatableFeatures(m, d).res.value.on <==>
      (m.sessionName == ComplSessionName && state / 2 % 2 == 1)
      || (m.sessionName == ManufSessionName && state % 2 == 1)
  {
    assert Pow2(0) == 1;
    assert Pow2(1) == 2;
  }

  /** `disable_deactivatable_features()`: disable the session's bit. */
  function DisableDeactivatableFeatures(m: Manager): (r: Out<()>)
    ensures r.m == m && r.res == Ok(())
    ensures r.calls == [DisableFeatures(SessionBitfield(m.sessionName))]
  {
    Out(m, [DisableFeatures(SessionBitfield(m.sessionName))], Ok(()))
  }

  /** `is_protected()` and `is_using_deactivatable_features()`: whether 0x1E02 enumerates. */
  function IsProtected(d: Device): (r: (seq<Call>, bool))
    ensures r.0 == [Enumerate(ProtectionFeature)] && r.1 == d.has1E02
  {
    ([Enumerate(ProtectionFeature)], d.has1E02)
  }

  /** The firmware answer for entity `k`; an entity past the answers given has no reply. */
  function FwAt(fws: seq<FwAnswer>, k: int): FwAnswer
  {
    if 0 <= k < |fws| then fws[k] else Ok(None)
  }

  /**
   * What the loop does at one entity: stop with the active entity's name,
   * stop with an exception (AttributeError on `fw_info.active` without a
   * reply), or go on past an inactive entity (None).
   */
  function AnswerAt(fws: seq<FwAnswer>, k: int): Option<Result<string>>
  {
    match FwAt(fws, k)
    case Raised(e) => Some(Raised(e))
    case Ok(None) => Some(Raised(AttributeError))
    case Ok(Some(fw)) => if fw.0 then Some(Ok(fw.1)) else None
  }

  /** The name `look_for_active_fw_name` answers when no entity is active. */
  const NoActiveFw := "nobody"

  /**
   * The loop of `look_for_active_fw_name` from entity `k` on: the outcome
   * at the first entity that stops it, or "nobody" when every counted
   * entity is read and inactive.
   */
  function FirstActiveFrom(fws: seq<FwAnswer>, k: int, count: int): (r: Result<string>)
    ensures (r == Ok(NoActiveFw) && forall j :: k <= j < count ==> AnswerAt(fws, j).None?)
      || (exists i :: k <= i < count && (forall j :: k <= j < i ==> AnswerAt(fws, j).None?) && AnswerAt(fws, i) == Some(r))
    decreases count - k
  {
    if k >= count then Ok(NoActiveFw)
    else
      match AnswerAt(fws, k)
      case Some(x) => x
      case None => FirstActiveFrom(fws, k + 1, count)
  }

  /** The loop answers the name of the first active entity when every entity before it is read and inactive. */
  lemma {:induction false} FirstActiveFound(fws: seq<FwAnswer>, k: int, count: int, i: int, name: string)
    requires k <= i < count && (forall j :: k <= j < i ==> AnswerAt(fws, j).None?)
    requires FwAt(fws, i) == Ok(Some((true, name)))
    ensures FirstActiveFrom(fws, k, count) == Ok(name)
    decreases i - k
  {
    if k < i {
      FirstActiveFound(fws, k + 1, count, i, name);
    }
  }

  /**
   * `look_for_active_fw_name()`: "nobody" when the identity read gets no
   * reply, otherwise the first active entity's name among the counted
   * ones, "nobody" when none is active.
   */
  function LookForActiveFwName(d: Device): (r: Result<string>)
    ensures d.entityCount == Ok(None) ==> r == Ok(NoActiveFw)
    ensures d.entityCount.Raised? ==> r == Raised(d.entityCount.exc)
    ensures d.entityCount.Ok? && d.entityCount.value.Some? ==> r == FirstActiveFrom(d.firmware, 0, d.entityCount.value.value)
  {
    match d.entityCount
    case Raised(e) => Raised(e)
    case Ok(None) => Ok(NoActiveFw)
    case Ok(Some(n)) => FirstActiveFrom(d.firmware, 0, n)
  }

  /** The unlocking modes. */
  datatype Mode = Manuf | Compl | OtherMode

  /**
   * The protected part of `unlock_device`: for an authenticated user, fetch
   * the password, open, enable. Each step's exception ends the sequence.
   */
  function UnlockSteps(m: Manager, d: Device): (r: Out<()>)
    ensures !m.authenticated ==> r == Out(m, [], Ok(()))
    ensures r.m.sessionName == m.sessionName && r.m.fwName == m.fwName
    ensures r.res.Raised? ==> r.res.exc == KeyError || r.res.exc == TypeError
    ensures (exists k :: 0 <= k < |r.calls| && r.calls[k].EnableFeatures?) ==>
      m.authenticated && FetchManuf(m).Ok? && Open(FetchManuf(m).value, d).res.Ok?
  {
    if !m.authenticated then Out(m, [], Ok(()))
    else
      match FetchManuf(m)
      case Raised(e) => Out(m, [], Raised(e))
      case Ok(m1) =>
        var o := Open(m1, d);
        match o.res
        case Raised(e) => Out(m1, o.calls, Raised(e))
        case Ok(_) =>
          var en := EnableDeactivatableFeatures(m1, d);
          var calls := o.calls + en.calls;
          match en.res
          case Raised(e) => Out(m1, calls, Raised(e))
          case Ok(_) => Out(m1, calls, Ok(()))
  }

  /** The firmware name a mode unlocks for, when the manufacturing lookup answers. */
  function ModeFw(d: Device, mode: Mode): string
    requires mode == Manuf ==> LookForActiveFwName(d).Ok?
  {
    if mode == Manuf then LookForActiveFwName(d).value else ComplianceFwName
  }

  /** The session name a mode opens. */
  function ModeSession(mode: Mode): string
  {
    if mode == Manuf then ManufSessionName else ComplSessionName
  }

  /**
   * `unlock_device(mode)`: reveal the hidden features, find the
   * authentication feature, then, for the manufacturing mode, look up the
   * active firmware's name, or for compliance take the name "Compliance",
   * and unlock when the device is protected. An exception of the lookup
   * ends the call with the session name already set. Other modes stop
   * after the authentication lookup.
   */
  function UnlockDevice(m: Manager, d: Device, mode: Mode): (r: Out<()>)
    ensures |r.calls| >= 2 && r.calls[0] == EnableHiddenFeatures && r.calls[1] == Enumerate(ProtectionFeature)
    ensures mode == Compl ==> r.m.fwName == ComplianceFwName && r.m.sessionName == ComplSessionName
    ensures mode == Manuf ==> r.m.sessionName == ManufSessionName
    ensures mode == Manuf && LookForActiveFwName(d).Ok? ==> r.m.fwName == LookForActiveFwName(d).value
    ensures mode == Manuf && LookForActiveFwName(d).Raised? ==>
      && r.res == Raised(LookForActiveFwName(d).exc) && r.m.fwName == m.fwName
      && r.calls[|r.calls| - 1] == LookUpActiveFw
    ensures r.m.deviceProtected == d.has1E02
    ensures r.res.Raised? ==>
      r.res.exc == KeyError || r.res.exc == TypeError || (mode == Manuf && LookForActiveFwName(d) == Raised(r.res.exc))
  {
    var a := GetAuthFeatureIndex(m, d);
    var head := [EnableHiddenFeatures] + a.calls;
    match mode
    case OtherMode => Out(a.m, head, Ok(()))
    case Manuf =>
      var m0 := SetSessionName(a.m, ManufSessionName);
      (match LookForActiveFwName(d)
       case Raised(e) => Out(m0, head + [LookUpActiveFw], Raised(e))
       case Ok(name) =>
         var m1 := m0.(fwName := name);
         var u := if m1.deviceProtected then UnlockSteps(m1, d) else Out(m1, [], Ok(()));
         Out(u.m, head + [LookUpActiveFw] + u.calls, u.res))
    case Compl =>
      var m1 := SetSessionName(a.m, ComplSessionName).(fwName := ComplianceFwName);
      var u := if m1.deviceProtected then UnlockSteps(m1, d) else Out(m1, [], Ok(()));
      Out(u.m, head + u.calls, u.res)
  }

  /**
   * In the manufacturing mode, a first entity whose firmware read gets no
   * reply ends the unlock with AttributeError: the firmware name is not
   * set and no session is started.
   */
  lemma {:induction false} MissingFirmwareReplyStopsUnlock(m: Manager, d: Device, n: int)
    requires d.entityCount == Ok(Some(n)) && n > 0 && FwAt(d.firmware, 0) == Ok(None)
    ensures UnlockDevice(m, d, Manuf).res == Raised(AttributeError)
    ensures UnlockDevice(m, d, Manuf).m.fwName == m.fwName
    ensures forall k :: 0 <= k < |UnlockDevice(m, d, Manuf).calls| ==> !UnlockDevice(m, d, Manuf).calls[k].StartSession?
  {
  }

  /**
   * Unlocking fetches a password and opens only for a protected device and
   * an authenticated user: otherwise no session call and no enabling is made.
   */
  lemma {:induction false} UnlockOnlyWhenProtectedAndAuthenticated(m: Manager, d: Device, mode: Mode)
    requires !d.has1E02 || !m.authenticated
    ensures UnlockDevice(m, d, mode).m.sessionPwd == m.sessionPwd
    ensures UnlockDevice(m, d, mode).res ==
      if mode == Manuf && LookForActiveFwName(d).Raised? then Raised(LookForActiveFwName(d).exc) else Ok(())
    ensures forall k :: 0 <= k < |UnlockDevice(m, d, mode).calls| ==>
      !UnlockDevice(m, d, mode).calls[k].StartSession? && !UnlockDevice(m, d, mode).calls[k].EnableFeatures?
  {
    var a := GetAuthFeatureIndex(m, d);
    assert forall k :: 0 <= k < |a.calls| ==> a.calls[k].Enumerate? || a.calls[k].GetReactInfo?;
  }

  /**
   * On a protected device, an authenticated user with the password in the
   * file gets it fetched and the session opened with it.
   */
  lemma {:induction false} UnlockOpensWithFetchedPassword(m: Manager, d: Device, mode: Mode)
    requires d.has1E02 && m.authenticated && mode != OtherMode
    requires d.reactInfo == Some(Auth1602) && d.hasAuthFeature && d.startReplies
    requires mode == Manuf ==> LookForActiveFwName(d).Ok?
    requires (ModeFw(d, mode), ModeSession(mode)) in m.vault && m.vault[(ModeFw(d, mode), ModeSession(mode))] != []
    ensures Passwd0(m.vault[(ModeFw(d, mode), ModeSession(mode))]) in UnlockDevice(m, d, mode).calls
  {
    var fw := ModeFw(d, mode);
    var s := ModeSession(mode);
    var m1 := SetSessionName(GetAuthFeatureIndex(m, d).m, s).(fwName := fw);
    assert m1.authenticated && m1.deviceProtected && m1.authFeatureIndex == Some(Auth1602);
    assert m1.vault == m.vault && m1.fwName == fw && m1.sessionName == s;
    StepsSendPassword(m1, d, m.vault[(fw, s)]);
    StepsInUnlock(m, d, mode, Passwd0(m.vault[(fw, s)]));
  }

  /**
   * `passwd0(None)` on the unlock path: an authenticated user whose file
   * holds an empty password for the session, on a manager that has fetched
   * none before, gets TypeError once the session start is answered; no
   * password and no feature enabling is sent.
   */
  lemma {:induction false} EmptyPasswordRaises(m: Manager, d: Device, mode: Mode)
    requires d.has1E02 && m.authenticated && mode != OtherMode && m.sessionPwd.None?
    requires d.reactInfo == Some(Auth1602) && d.hasAuthFeature && d.startReplies
    requires mode == Manuf ==> LookForActiveFwName(d).Ok?
    requires (ModeFw(d, mode), ModeSession(mode)) in m.vault && m.vault[(ModeFw(d, mode), ModeSession(mode))] == []
    ensures UnlockDevice(m, d, mode).res == Raised(TypeError)
    ensures forall k :: 0 <= k < |UnlockDevice(m, d, mode).calls| ==>
      !UnlockDevice(m, d, mode).calls[k].Passwd0? && !UnlockDevice(m, d, mode).calls[k].EnableFeatures?
  {
    var fw := ModeFw(d, mode);
    var s := ModeSession(mode);
    var a := GetAuthFeatureIndex(m, d);
    var m1 := SetSessionName(a.m, s).(fwName := fw);
    assert m1.authenticated && m1.deviceProtected && m1.authFeatureIndex == Some(Auth1602);
    assert m1.vault == m.vault && m1.fwName == fw && m1.sessionName == s && m1.sessionPwd.None?;
    assert FetchManuf(m1) == Ok(m1);
    var u := UnlockSteps(m1, d);
    assert u.calls == [StartSession(m1.sessionNameBytes)] && u.res == Raised(TypeError);
    assert forall k :: 0 <= k < |a.calls| ==> a.calls[k].Enumerate? || a.calls[k].GetReactInfo?;
    if mode == Manuf {
      assert UnlockDevice(m, d, mode).calls == [EnableHiddenFeatures] + a.calls + [LookUpActiveFw] + u.calls;
    } else {
      assert UnlockDevice(m, d, mode).calls == [EnableHiddenFeatures] + a.calls + u.calls;
    }
  }

  /** With a password on file for the session, the unlock steps fetch it and send it. */
  lemma {:induction false} StepsSendPassword(m: Manager, d: Device, pwd: seq<int>)
    requires m.authenticated && m.deviceProtected && m.authFeatureIndex == Some(Auth1602) && d.startReplies
    requires (m.fwName, m.sessionName) in m.vault && m.vault[(m.fwName, m.sessionName)] == pwd && pwd != []
    ensures Passwd0(pwd) in UnlockSteps(m, d).calls
  {
    var f := FetchManuf(m);
    assert f == Ok(m.(sessionPwd := Some(pwd)));
    var o := Open(f.value, d);
    assert Passwd0(pwd) in o.calls;
    assert UnlockSteps(m, d).calls == o.calls + EnableDeactivatableFeatures(f.value, d).calls;
  }

  /** On a protected device, every call of the unlock steps is a call of `unlock_device`. */
  lemma {:induction false} StepsInUnlock(m: Manager, d: Device, mode: Mode, x: Call)
    requires d.has1E02 && mode != OtherMode
    requires mode == Manuf ==> LookForActiveFwName(d).Ok?
    requires x in UnlockSteps(SetSessionName(GetAuthFeatureIndex(m, d).m, ModeSession(mode)).(fwName := ModeFw(d, mode)), d).calls
    ensures x in UnlockDevice(m, d, mode).calls
  {
    var a := GetAuthFeatureIndex(m, d);
    if mode == Manuf {
      var u := UnlockSteps(SetSessionName(a.m, ManufSessionName).(fwName := ModeFw(d, mode)), d);
      assert UnlockDevice(m, d, mode).calls == [EnableHiddenFeatures] + a.calls + [LookUpActiveFw] + u.calls;
    } else {
      var u := UnlockSteps(SetSessionName(a.m, ComplSessionName).(fwName := ComplianceFwName), d);
      assert UnlockDevice(m, d, mode).calls == [EnableHiddenFeatures] + a.calls + u.calls;
    }
  }
}
