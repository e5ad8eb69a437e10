/**
 * The per-device directory (core/device_info.py) and the plain records it
 * holds (core/feature_info.py, core/fw_info.py, core/interface.py).
 *
 * The directory maps a feature id to the feature's entry, including its
 * runtime index on this device, and lists the firmware entities read from the
 * device. The root feature 0x0000 always sits at index 0.
 */
module Device {
  import opened Wrappers

  /** `FeatureInfo`: one entry of the feature directory. */
  datatype FeatureInfo = FeatureInfo(id: int, idx: int, obsolete: bool, eng: bool, version: int)

  /** `DeviceInfoStruct`: what feature 0x0003 reports about the device. */
  datatype DeviceInfoStruct = DeviceInfoStruct(
    entityCount: int, unitId: int, transport: int, modeId: seq<int>, capabilities: int)

  /** `FirmwareInfo`: one firmware entity. */
  datatype FirmwareInfo = FirmwareInfo(
    entityIdx: int, devType: int, fwName: string, rev: int, build: int, trPid: int, active: bool)

  /**
   * One record of the HID enumeration: the fields the library reads. The path
   * is kept in its decoded (text) form.
   */
  datatype Endpoint = Endpoint(vendorId: int, productId: int, usagePage: int, usage: int, path: string)

  /** `HIDPPInterface`: the short, long and extra-long endpoints of one device. */
  datatype Interface = Interface(short: Option<Endpoint>, long: Option<Endpoint>, extraLong: Option<Endpoint>)

  /**
   * `DeviceInfo`. `identity` holds the five attributes `set_device_info`
   * assigns; they do not exist on the object before that call.
   */
  datatype DeviceInfo = DeviceInfo(
    name: string,
    vid: int,
    pid: int,
    interface: Interface,
    subIdx: int,
    devType: Option<string>,
    link: Option<int>,
    tid: Option<int>,
    features: map<int, FeatureInfo>,
    entities: seq<FirmwareInfo>,
    identity: Option<DeviceInfoStruct>)

  const RootFeatureId := 0x0000

  /** The entry the constructor installs: feature 0 at index 0, no flags, version 0. */
  const RootEntry := FeatureInfo(RootFeatureId, 0, false, false, 0)

  /** Every directory the library can build knows the root feature. */
  predicate Valid(d: DeviceInfo) { RootFeatureId in d.features }

  function NewDeviceInfo(vid: int, pid: int, interface: Interface, name: string, subIdx: int,
                         devType: Option<string>, link: Option<int>): (d: DeviceInfo)
    ensures d.features == map[RootFeatureId := RootEntry]
    ensures d.entities == [] && d.tid == None && d.identity == None
    ensures d.name == name && d.vid == vid && d.pid == pid && d.interface == interface
    ensures d.subIdx == subIdx && d.devType == devType && d.link == link
    ensures Valid(d)
  {
    var empty := DeviceInfo(name, vid, pid, interface, subIdx, devType, link, None, map[], [], None);
    AddFeature(empty, RootEntry)
  }

  /** `add_feature`: keyed by the entry's id; a later entry replaces an earlier one. */
  function AddFeature(d: DeviceInfo, info: FeatureInfo): (d': DeviceInfo)
    ensures d'.features.Keys == d.features.Keys + {info.id}
    ensures d'.features[info.id] == info
    ensures forall id :: id in d.features && id != info.id ==> d'.features[id] == d.features[id]
    ensures d' == d.(features := d'.features)
    ensures Valid(d) ==> Valid(d')
  {
    d.(features := d.features[info.id := info])
  }

  /** `is_enumerated`. */
  predicate IsEnumerated(d: DeviceInfo, featureId: int)
  {
    featureId in d.features
  }

  /** `add_entity_fw_info`: appended in call order. */
  function AddEntityFwInfo(d: DeviceInfo, e: FirmwareInfo): (d': DeviceInfo)
    ensures d'.entities == d.entities + [e]
    ensures d' == d.(entities := d'.entities)
  {
    d.(entities := d.entities + [e])
  }

  /** `set_device_info`: copies the five identity fields and nothing else. */
  function SetDeviceInfo(d: DeviceInfo, data: DeviceInfoStruct): (d': DeviceInfo)
    ensures d'.identity == Some(data)
    ensures d' == d.(identity := Some(data))
  {
    d.(identity := Some(data))
  }

  /** A fresh directory holds exactly the root entry. */
  lemma {:induction false} FreshDirectoryHoldsRoot(vid: int, pid: int, interface: Interface, name: string, subIdx: int,
                                devType: Option<string>, link: Option<int>)
    ensures var d := NewDeviceInfo(vid, pid, interface, name, subIdx, devType, link);
      (forall id :: IsEnumerated(d, id) <==> id == RootFeatureId)
      && d.features[RootFeatureId] == FeatureInfo(0, 0, false, false, 0)
  {
  }

  /** Adding the same id twice leaves one entry, holding the latest info. */
  lemma {:induction false} AddFeatureOverwrites(d: DeviceInfo, a: FeatureInfo, b: FeatureInfo)
    requires a.id == b.id
    ensures AddFeature(AddFeature(d, a), b) == AddFeature(d, b)
  {
  }

  /** An added feature is enumerated, and no other id changes status. */
  lemma {:induction false} AddFeatureEnumerates(d: DeviceInfo, info: FeatureInfo, id: int)
    ensures IsEnumerated(AddFeature(d, info), id) <==> (id == info.id || IsEnumerated(d, id))
  {
  }

  /** Entities come back in the order they were added. */
  lemma {:induction false} EntitiesInCallOrder(d: DeviceInfo, es: seq<FirmwareInfo>)
    ensures AddAllEntities(d, es).entities == d.entities + es
    decreases |es|
  {
    if es != [] {
      EntitiesInCallOrder(AddEntityFwInfo(d, es[0]), es[1..]);
      assert d.entities + [es[0]] + es[1..] == d.entities + es;
    }
  }

  function AddAllEntities(d: DeviceInfo, es: seq<FirmwareInfo>): DeviceInfo
    decreases |es|
  {
    if es == [] then d else AddAllEntities(AddEntityFwInfo(d, es[0]), es[1..])
  }
}
