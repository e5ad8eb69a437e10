# pyhidpp, modelled in Dafny

A model of the pyhidpp library, which talks HID++ 2.0 to Logitech-style
devices. The library builds request frames and matches the device's
responses to them. It keeps a directory of the features a device reports,
and it packs and unpacks the fixed-offset payloads of each feature. It also
drives a firmware update and groups HID endpoints into interfaces. Above the
feature layer sits an SPI sensor stack: register access, chip detection and
bitstream upload. Last come the security unlock sequence and the INI reader
behind the password service.

The hardware is replaced by inputs:
- A feature exchange consumes the next reply from a `Link`, a script of
  optional reply frames, and records the request it sent.
- The response correlator reads a sequence of wait outcomes.
- The firmware update reads a sequence of send and poll outcomes.
- The SPI bus answers from a list of optional byte strings and logs every
  transfer and chip-select signal.
- Python exceptions that escape a routine become the `Raised` case of a
  `Result` (IndexError, TypeError, AttributeError, ValueError, KeyError,
  struct.error).
- Python integers are Dafny `int`. Shifts, masks, `|` and slices are written
  out with Python's semantics (module `Bits`).

Modules follow the source files:

| module | source |
|---|---|
| Frame | core/request.py |
| Device | core/device_info.py |
| Connection | core/connected_device.py |
| FeatureCall | features/feature.py and the enumeration routines of core/connected_device.py |
| IntCodec | core/utils.py |
| Packing | the byte idioms the feature classes share: shifts and masks, slice assignment into a zero list, `struct.pack` |
| Text | Python's decimal `str(n)` and `int(s)`, and hex formatting |
| Bits, Wrappers | Python integer operations and slices; the `Option` and `Result` types |
| Root, FeatureSet, DeviceIdentity, DeviceName | features/x0000.py, x0001.py, x0003.py, x0005.py |
| X… | one module per feature file |
| ForceButton | features/x19c0.py |
| SpiAccess | features/x1e22.py |
| DfuFile, DfuController | core/dfu_data.py, core/dfu_controller.py |
| Discovery | core/discovery.py |
| Registers, Sensor, SensorUpload | sensor/sensor.py |
| SensorInterface | sensor/interface.py |
| Detection | sensor/detection.py |
| Bitstream | sensor/bitstream.py |
| Security | security/security_manager.py |
| Ini | security/lambda.js |

Every path is under `Vibration_test_scripts/pyhidpp/pyhidpp/`.

Where the code and its documentation disagree, the model follows the code:
- A frame whose first byte is not 0x10, 0x11 or 0x12 is not rejected. Its
  header fields are still read (`Frame.FromList`).
- Params longer than a report's capacity are never truncated. They lengthen
  the built frame (`Frame.BuildRequest`).
- `enumerate_all` looks up indices 2 to count inclusive.
- `__isTheResponse` never compares the device index.
- `Sensor.get_register` works only through the register-name path: a hex
  address raises AttributeError and a `Register` object raises TypeError
  (`Registers.GetRegister`). The register access of `Sensor` and
  `SensorUpload` resolves references through it.

Every finding below is modelled twice. The member named after the source
routine does what the code does. A sibling whose name ends in `Corrected`
does what was evidently intended and carries the intended property. The
wrappers that call such a routine come in the same two forms, the plain one
calling the as-written half:
- `X9201.ReadSensorRegister`;
- the `WriteCalibration` of X9201, X9203, X9205 and X9209;
- `DeviceIdentity.ParseFwInfo`;
- `FeatureCall.EnumerateAll`;
- the X9402 device calls `ReadMeasurement`, `ReadCalData` and `WriteCalData`;
- `X1001.GetBatteryInfo`;
- `Sensor.ReadRegister`, `WriteRegister`, `Lookups` and `ReadRegisters`;
- `SensorUpload.LoadBitstream`.

## Model

| member | source | states |
|---|---|---|
| Connection.NewConn | Vibration_test_scripts/pyhidpp/pyhidpp/core/connected_device.py:32-69 | a new connection is connected, uses 20-byte long reports without the very-long mode, starts with an empty notification registry and empty queues, and has no link callback set or called |
| Connection.Disconnect | Vibration_test_scripts/pyhidpp/pyhidpp/core/connected_device.py:71-79 | a connected device loses its registry and falls back to the 20-byte report length; a disconnected one is left as it was; nothing else changes |
| Connection.MatchRule | Vibration_test_scripts/pyhidpp/pyhidpp/core/connected_device.py:506-526 | a response matches iff feature, function and software id agree, or the response is an error frame (0xFF) whose function nibble and software id rebuild the request's feature index |
| Connection.NoneNeverMatches | Vibration_test_scripts/pyhidpp/pyhidpp/core/connected_device.py:510-511 | a missing request or response never matches |
| Connection.MatchIgnoresDevIdxAndParams | Vibration_test_scripts/pyhidpp/pyhidpp/core/connected_device.py:514-526 | the device index and the params of a response never affect matching |
| Connection.ErrorFrameMatches | Vibration_test_scripts/pyhidpp/pyhidpp/core/connected_device.py:514-517 | an error frame received from the device that echoes the request's feature index in byte 3 decodes and matches that request |
| Connection.SendAndWait | Vibration_test_scripts/pyhidpp/pyhidpp/core/connected_device.py:137-194 | frames queued before the send are drained and never returned; a first timeout or match ends the call at once; after a miss at most ten more waits follow, the first match is returned and the queue cleared, and after ten misses the last outcome comes back although it does not match |
| Connection.NotifKey | Vibration_test_scripts/pyhidpp/pyhidpp/core/connected_device.py:441 | the key is the decimal feature index, a colon, then the decimal notification id |
| Connection.NotifKeyInjective | Vibration_test_scripts/pyhidpp/pyhidpp/core/connected_device.py:92 | two different (feature index, notification id) pairs never share a registry key |
| Connection.UnregisterNotif | Vibration_test_scripts/pyhidpp/pyhidpp/core/connected_device.py:95-101 | an unenumerated feature leaves the connection unchanged; otherwise exactly the key of the feature's index and notification id leaves the registry |
| Connection.RegisterNotif | Vibration_test_scripts/pyhidpp/pyhidpp/core/connected_device.py:84-93 | an unenumerated feature is refused; otherwise the callback is stored under its key, replacing any earlier one, and nothing else changes |
| Connection.NotifTarget | Vibration_test_scripts/pyhidpp/pyhidpp/core/connected_device.py:437-447 | a frame is consumed iff its software id is 0, its function is at most 0x0F and a callback is registered under its key, and then by that callback |
| Connection.RegisteredCallbackReceives | Vibration_test_scripts/pyhidpp/pyhidpp/core/connected_device.py:84-93 | after registering, every notification frame of that feature index and notification id goes to the new callback |
| Connection.UnregisteredNotConsumed | Vibration_test_scripts/pyhidpp/pyhidpp/core/connected_device.py:95-101 | after unregistering, frames of that key are no longer consumed as notifications |
| Connection.RegisterIsLocal | Vibration_test_scripts/pyhidpp/pyhidpp/core/connected_device.py:84-93 | registering one key leaves the delivery of every other key unchanged |
| Connection.OnShortRead | Vibration_test_scripts/pyhidpp/pyhidpp/core/connected_device.py:335-362 | a short-endpoint read changes at most the link flag and the record of link callbacks, to which it appends at most the one callback of the new link state; it never queues a frame; an empty read changes nothing |
| Connection.LinkStatus | Vibration_test_scripts/pyhidpp/pyhidpp/core/connected_device.py:344-362 | a 0x41 report for the device's sub-index sets the link flag to "bit 6 of the first param is clear", and calls the deconnection or reconnection callback of the new state exactly when that callback is set; any other short frame leaves the connection alone |
| Connection.OnLongRead | Vibration_test_scripts/pyhidpp/pyhidpp/core/connected_device.py:364-370 | a decoded long frame goes either to the callback registered for it or to the end of the input queue; an empty read changes nothing; the registry is never touched |
| Connection.ListenerStep | Vibration_test_scripts/pyhidpp/pyhidpp/core/connected_device.py:334-383 | one listener iteration keeps the registry and device info and adds at most two frames to the queue and callbacks together |
| Connection.FrameQueuedOrDelivered | Vibration_test_scripts/pyhidpp/pyhidpp/core/connected_device.py:369-370 | every decodable long frame ends up in exactly one place: appended to the input queue or handed to a callback, never both |
| Connection.PromotedType | Vibration_test_scripts/pyhidpp/pyhidpp/core/connected_device.py:410-422 | no frame is written as short; a frame is written very long iff it was very long or very-long reports are in use |
| Connection.CommanderStep | Vibration_test_scripts/pyhidpp/pyhidpp/core/connected_device.py:404-431 | every typed request reaches the long-endpoint write with the promoted type's tag, its device index and feature, padded at least to the promoted length; an untyped one raises while building |
| Connection.CommanderRoundTrip | Vibration_test_scripts/pyhidpp/pyhidpp/core/connected_device.py:406-428 | the bytes written decode back to the request itself, with its type promoted and its params zero-padded to the promoted capacity |
| Frame.TypeOfTag | Vibration_test_scripts/pyhidpp/pyhidpp/core/request.py:27-43 | only the first bytes 0x10, 0x11 and 0x12 announce a type (short, long, very long), and the tag of that type is the byte itself |
| Frame.TypeOfName | Vibration_test_scripts/pyhidpp/pyhidpp/core/request.py:55-61 | each of the three type names is recognised, and nothing else |
| Frame.FromList | Vibration_test_scripts/pyhidpp/pyhidpp/core/request.py:26-52 | a known tag gives that type and params zero-padded to the report length (never truncated); an unknown tag is not rejected and gives an untyped request whose params are bytes 4 on; a list too short for the header raises IndexError |
| Frame.FromFields | Vibration_test_scripts/pyhidpp/pyhidpp/core/request.py:54-71 | a known type name gives a request with the given header fields and the params zero-padded up to the type's capacity, never truncated; an unknown name raises AttributeError in the padding loop |
| Frame.DefaultsAreLongBroadcast | Vibration_test_scripts/pyhidpp/pyhidpp/core/request.py:9-17 | the constructor defaults give a long request to device index 0xFF, feature 0, function 0, software id 0x0F |
| Frame.PackFunctionSwId | Vibration_test_scripts/pyhidpp/pyhidpp/core/request.py:89 | a software id below 16 sits in the low nibble under the function number |
| Frame.BuildRequest | Vibration_test_scripts/pyhidpp/pyhidpp/core/request.py:73-92 | the frame is the type's tag, device index, feature, packed function byte, then the params; its length is 4 plus the params' length, so over-long params lengthen it; an untyped request raises AttributeError |
| Frame.BuildThenDecode | Vibration_test_scripts/pyhidpp/pyhidpp/core/request.py:48-52 | decoding the built frame of a typed, well-formed request with a software id below 16 gives the request back |
| Frame.DecodeThenBuild | Vibration_test_scripts/pyhidpp/pyhidpp/core/request.py:27-52 | building the request decoded from a list with a known tag gives the list back, zero-padded to the report length |
| Frame.UnknownTagAccepted | Vibration_test_scripts/pyhidpp/pyhidpp/core/request.py:45-52 | a list with an unknown tag and at least four bytes decodes, untyped, with its header fields read; building it again raises |
| Frame.OverlongParamsLengthenFrame | Vibration_test_scripts/pyhidpp/pyhidpp/core/request.py:69-90 | params longer than the capacity survive construction unchanged and make the built frame longer than the report length |
| FeatureCall.Send | Vibration_test_scripts/pyhidpp/pyhidpp/features/feature.py:59 | an exchange with the device logs the request and consumes exactly one reply outcome, a missing one once the replies run out |
| FeatureCall.RequestTypeFor | Vibration_test_scripts/pyhidpp/pyhidpp/features/feature.py:43-48 | the type is very long iff more than 20 params, short iff at most 3, long otherwise |
| FeatureCall.SeventeenToTwentyParamsOverflowLong | Vibration_test_scripts/pyhidpp/pyhidpp/features/feature.py:43-57 | 17 to 20 params are typed long although a long report carries 16, so the built frame is longer than a long report |
| FeatureCall.ChosenTypeFits | Vibration_test_scripts/pyhidpp/pyhidpp/features/feature.py:43-57 | up to 16 params, and from 21 to 60, the chosen report type holds the params exactly |
| FeatureCall.MakeRequest | Vibration_test_scripts/pyhidpp/pyhidpp/features/feature.py:51-57 | the request carries the chosen type, the device's sub-index, the feature's runtime index, the function, the default software id and the zero-padded params |
| FeatureCall.Validate | Vibration_test_scripts/pyhidpp/pyhidpp/features/feature.py:62-84 | a reply is accepted iff it exists, is not an error frame, and carries the request's device index, feature index and the connection's software id; the function is not checked; an accepted reply is passed on unchanged |
| FeatureCall.ProcessAt | Vibration_test_scripts/pyhidpp/pyhidpp/features/feature.py:43-84 | once the feature index is known, exactly one request is sent and the result is the validated reply |
| FeatureCall.GetFeature | Vibration_test_scripts/pyhidpp/pyhidpp/features/x0000.py:9-30 | the root lookup keeps the connection, gives the default entry when disconnected, and always carries the requested id |
| FeatureCall.EnumerateFeature | Vibration_test_scripts/pyhidpp/pyhidpp/core/connected_device.py:267-279 | false when disconnected; true without a request when the feature is known; otherwise true iff the lookup adds the feature, and index 0 leaves the directory unchanged |
| FeatureCall.ConstructAndProcess | Vibration_test_scripts/pyhidpp/pyhidpp/features/feature.py:18-84 | None without sending when disconnected or the feature cannot be enumerated; an accepted reply is addressed from the device's sub-index and the feature's runtime index |
| FeatureCall.KnownFeatureSendsOneRequest | Vibration_test_scripts/pyhidpp/pyhidpp/features/feature.py:30-59 | for a known feature exactly one request is sent, to the feature's runtime index, and the directory is unchanged |
| FeatureCall.GetFeatureIsGenericRequest | Vibration_test_scripts/pyhidpp/pyhidpp/features/x0000.py:9-30 | the root lookup is the generic request on feature 0 followed by the root parser |
| FeatureCall.NotFoundAddsNothing | Vibration_test_scripts/pyhidpp/pyhidpp/core/connected_device.py:274-276 | a lookup that answers index 0 makes enumeration return false and adds nothing |
| FeatureCall.GetCount | Vibration_test_scripts/pyhidpp/pyhidpp/features/x0001.py:8-14 | the count request changes at most the directory, and nothing once feature 0x0001 is known |
| FeatureCall.GetFeatureId | Vibration_test_scripts/pyhidpp/pyhidpp/features/x0001.py:16-32 | the result always carries the requested index, and on a known feature set exactly the get-feature-id request is sent |
| FeatureCall.EnumerateFrom | Vibration_test_scripts/pyhidpp/pyhidpp/core/connected_device.py:291-293 | the loop sends one request per index lo..hi and adds each result; existing keys stay, and every entry afterwards is either an old one unchanged or a freshly looked-up one |
| FeatureCall.EnumerateAll | Vibration_test_scripts/pyhidpp/pyhidpp/core/connected_device.py:281-296 | false when disconnected; success implies feature 0x0001 is enumerated; no key is ever removed; once 0x0001 is known, every entry afterwards is an old one unchanged or has an index from 2 on, the loop's range, failed lookups included |
| FeatureCall.EnumerateAllCorrected | Vibration_test_scripts/pyhidpp/pyhidpp/core/connected_device.py:281-296 | with failed lookups skipped the same holds, and the root entry is never changed |
| FeatureCall.SilentDeviceOverwritesRoot | Vibration_test_scripts/pyhidpp/pyhidpp/core/connected_device.py:291-293 | when the device stops answering during the loop, the root entry is replaced by id 0 at index `hi` |
| FeatureCall.EnumerateFromKeepingRoot | Vibration_test_scripts/pyhidpp/pyhidpp/core/connected_device.py:291-293 | the loop that skips failed lookups keeps the root entry and still sends one request per index |
| FeatureCall.SendCustomRequest | Vibration_test_scripts/pyhidpp/pyhidpp/core/connected_device.py:206-234 | None without sending when disconnected or the feature is not already known; otherwise the raw reply outcome, unvalidated |
| FeatureCall.GetResponseLength | Vibration_test_scripts/pyhidpp/pyhidpp/core/connected_device.py:528-554 | only the report length and very-long flag change; very-long sending is switched on only together with a 64-byte read length; false changes nothing; a missing second reply raises AttributeError |
| FeatureCall.Call | Vibration_test_scripts/pyhidpp/pyhidpp/features/feature.py:18-84 | a feature method is the generic request followed by its parser on the accepted reply's params; no accepted reply gives None without consulting the parser |
| FeatureCall.CallOnKnownFeature | Vibration_test_scripts/pyhidpp/pyhidpp/features/feature.py:33-34 | a call on a feature already known leaves the connection as it was |
| FeatureCall.CallSendsOneRequest | Vibration_test_scripts/pyhidpp/pyhidpp/features/feature.py:18-60 | on a known feature of a connected device a call sends exactly its one request and keeps the connection |
| FeatureCall.FullPayloadSentAsIs | Vibration_test_scripts/pyhidpp/pyhidpp/features/feature.py:43-58 | sixteen params fill a long report, so they are sent without padding |
| FeatureCall.CallAnswered | Vibration_test_scripts/pyhidpp/pyhidpp/features/feature.py:51-76 | on a known feature with an accepted reply, one request is sent and the parser receives that reply's params |
| FeatureCall.CallUnanswered | Vibration_test_scripts/pyhidpp/pyhidpp/features/feature.py:62-84 | without an accepted reply, a call on a known feature gives None and keeps the connection |
| FeatureCall.CallStrict | Vibration_test_scripts/pyhidpp/pyhidpp/features/feature.py:62-84 | a feature method that reads the params of a None reply raises AttributeError, and otherwise behaves as the call |
| FeatureCall.CallStrictAnswered | Vibration_test_scripts/pyhidpp/pyhidpp/features/feature.py:51-76 | a strict call with an accepted reply hands its params to the parser |
| FeatureCall.CallOpt | Vibration_test_scripts/pyhidpp/pyhidpp/features/feature.py:62-84 | a parser's None and a missing reply look the same to the caller |
| FeatureCall.CallOptAnswered | Vibration_test_scripts/pyhidpp/pyhidpp/features/feature.py:51-76 | an optional-result call with an accepted reply gives the parser's answer |
| FeatureCall.Invoke | Vibration_test_scripts/pyhidpp/pyhidpp/features/feature.py:18-84 | a payload that raised while being built sends nothing; otherwise, on a known feature, exactly one request is sent |
| FeatureCall.Command | Vibration_test_scripts/pyhidpp/pyhidpp/features/feature.py:18-84 | a method without a return sends as `Invoke` does and gives None whatever the reply |
| Device.NewDeviceInfo | Vibration_test_scripts/pyhidpp/pyhidpp/core/device_info.py:30-46 | a new device record holds the given identification fields, only the root entry in its directory, no entities, no transport id and no identity |
| Device.AddFeature | Vibration_test_scripts/pyhidpp/pyhidpp/core/device_info.py:51-52 | the entry is stored under its id, replacing any earlier one; every other id keeps its entry; nothing else changes; the root entry invariant is kept |
| Device.AddEntityFwInfo | Vibration_test_scripts/pyhidpp/pyhidpp/core/device_info.py:48-49 | the entity is appended at the end and nothing else changes |
| Device.SetDeviceInfo | Vibration_test_scripts/pyhidpp/pyhidpp/core/device_info.py:84-89 | the identity fields are set from the data and nothing else changes |
| Device.FreshDirectoryHoldsRoot | Vibration_test_scripts/pyhidpp/pyhidpp/core/device_info.py:43-46 | a fresh directory enumerates exactly the root feature, at index 0, not obsolete, not engineering, version 0 |
| Device.AddFeatureOverwrites | Vibration_test_scripts/pyhidpp/pyhidpp/core/device_info.py:51-52 | adding two entries with the same id is the same as adding only the later one |
| Device.AddFeatureEnumerates | Vibration_test_scripts/pyhidpp/pyhidpp/core/device_info.py:91-94 | after adding an entry, an id is enumerated iff it is the entry's id or was enumerated before |
| Device.EntitiesInCallOrder | Vibration_test_scripts/pyhidpp/pyhidpp/core/device_info.py:44-49 | entities added one after another come back in call order after the earlier ones |
| Root.GetFeatureParams | Vibration_test_scripts/pyhidpp/pyhidpp/features/x0000.py:9-11 | three bytes whose first two join big-endian to a 16-bit feature id, then a zero |
| Root.FlagsByte | Vibration_test_scripts/pyhidpp/pyhidpp/features/x0000.py:22-23 | the flags byte the parser reads: bit 7 set iff obsolete, bit 5 set iff engineering |
| Root.ParseFeature | Vibration_test_scripts/pyhidpp/pyhidpp/features/x0000.py:13-30 | the entry always carries the requested id; no reply gives index 0 with default flags; index 0 keeps the defaults; otherwise the flags come from bits 7 and 5 of p1 and the version from p2; a reply too short for what is read raises IndexError |
| Root.ParseFeatureRoundTrip | Vibration_test_scripts/pyhidpp/pyhidpp/features/x0000.py:19-30 | parsing the reply that describes a found entry gives that entry back |
| FeatureSet.GetFeatureIdParams | Vibration_test_scripts/pyhidpp/pyhidpp/features/x0001.py:17-19 | the request params are the index followed by two zeros |
| FeatureSet.ParseCount | Vibration_test_scripts/pyhidpp/pyhidpp/features/x0001.py:8-14 | the count is p0, 0 without a reply, and an empty reply raises IndexError |
| FeatureSet.ParseFeatureId | Vibration_test_scripts/pyhidpp/pyhidpp/features/x0001.py:16-32 | the entry always carries the requested index; without a reply the id is 0; otherwise id = p0 joined with p1, obsolete and engineering from bits 7 and 5 of p2, version p3; fewer than four params raise IndexError |
| FeatureSet.ParseFeatureIdRoundTrip | Vibration_test_scripts/pyhidpp/pyhidpp/features/x0001.py:25-32 | parsing the reply that describes an entry with a 16-bit id gives that entry back |
| DeviceIdentity.GetDeviceInfoRequest | Vibration_test_scripts/pyhidpp/pyhidpp/features/x0003.py:10-11 | the identity request is function 0 with three zero params |
| DeviceIdentity.GetFwInfoRequest | Vibration_test_scripts/pyhidpp/pyhidpp/features/x0003.py:26-28 | the firmware request is function 1 with the entity index as p0 |
| DeviceIdentity.GetSerialNumberRequest | Vibration_test_scripts/pyhidpp/pyhidpp/features/x0003.py:50-51 | the serial number request is function 2 with three zero params |
| DeviceIdentity.ParseDeviceInfo | Vibration_test_scripts/pyhidpp/pyhidpp/features/x0003.py:17-23 | entity count p0, unit id u32 big-endian from p1..4, transport u16 big-endian from p5..6, mode id p7..12, capabilities p14; fewer than 15 params raise IndexError |
| DeviceIdentity.DeviceInfoRoundTrip | Vibration_test_scripts/pyhidpp/pyhidpp/features/x0003.py:17-23 | decoding the identity reply a device sends gives the identity back |
| DeviceIdentity.ParseFwInfo | Vibration_test_scripts/pyhidpp/pyhidpp/features/x0003.py:34-47 | as written only IndexError or ValueError can be raised; nine byte params whose build bytes are packed BCD always parse; the build is the unpadded hex digits of p6 and p7 joined and read in decimal, which is the four-digit BCD build when neither byte is below 0x10 |
| DeviceIdentity.ParseFwInfoCorrected | Vibration_test_scripts/pyhidpp/pyhidpp/features/x0003.py:34-47 | with two hex digits per build byte, packed-BCD build bytes always give the four-digit build |
| DeviceIdentity.DecodeFwInfo | Vibration_test_scripts/pyhidpp/pyhidpp/features/x0003.py:34-47 | device type p0; name the characters of p1..p3 followed by the two nibbles of p4 in decimal; revision p5; active bit 0 of p8; transport pid u16 big-endian of p9..10; only IndexError or ValueError; byte params of at least nine parse whenever their build does |
| DeviceIdentity.BuildAsWrittenBcd | Vibration_test_scripts/pyhidpp/pyhidpp/features/x0003.py:43 | the unpadded join of two packed-BCD bytes always parses, and equals the padded one when neither byte is below 0x10 |
| DeviceIdentity.BuildLosesLeadingZero | Vibration_test_scripts/pyhidpp/pyhidpp/features/x0003.py:43 | as written the build bytes 0x01, 0x05 read as 15, where the four digits, and the fixed decoding, give 105 |
| DeviceIdentity.BuildFixedIsBcd | Vibration_test_scripts/pyhidpp/pyhidpp/features/x0003.py:43 | with both bytes padded to two digits, packed-BCD build bytes read as the corrected four-digit build |
| DeviceIdentity.BuildCorrectedIsBcd | Vibration_test_scripts/pyhidpp/pyhidpp/features/x0003.py:43 | the corrected build is the four packed decimal digits of the two bytes, in order |
| DeviceIdentity.ParseSerialNumber | Vibration_test_scripts/pyhidpp/pyhidpp/features/x0003.py:57-59 | the serial number is the characters of the first twelve params, one per param |
| DeviceIdentity.SerialNumberKeepsBytes | Vibration_test_scripts/pyhidpp/pyhidpp/features/x0003.py:57 | the serial number text gives back the twelve bytes it was read from |
| DeviceIdentity.ReadDeviceInfo | Vibration_test_scripts/pyhidpp/pyhidpp/core/connected_device.py:556-577 | nothing happens when disconnected; no directory entry is lost; the identity changes only once feature 0x0003 is enumerated ; when the report is asked for and the read completes with a new identity, a tid has been recorded |
| DeviceIdentity.ReadIdentity | Vibration_test_scripts/pyhidpp/pyhidpp/core/connected_device.py:565-577 | once 0x0003 is known only the device record changes and the feature directory is kept; with the report asked for, a completed read that changed the identity has recorded a tid |
| DeviceIdentity.IdentityReportRaisesOnlyWithoutTid | Vibration_test_scripts/pyhidpp/pyhidpp/core/connected_device.py:576-577 | after 0x0003 is found, asking for the report changes neither the connection nor the link; the outcome differs only when the read completed with tid unset, and then it is TypeError |
| DeviceIdentity.ReportRaisesOnlyWithoutTid | Vibration_test_scripts/pyhidpp/pyhidpp/core/connected_device.py:576-577 | asking for the report changes neither the connection nor the link; the outcome differs only when the read completed with tid unset, and then it is TypeError |
| DeviceIdentity.NoEntitiesReportRaises | Vibration_test_scripts/pyhidpp/pyhidpp/core/device_info.py:53-62 | a device reporting no entities leaves tid None, so the report's `{:04X}` raises TypeError where the plain read succeeds |
| DeviceIdentity.FetchFirmware | Vibration_test_scripts/pyhidpp/pyhidpp/core/connected_device.py:570 | one firmware read on a known feature keeps the connection, names the requested entity, and a missing reply raises on the next attribute read |
| DeviceIdentity.FetchEntities | Vibration_test_scripts/pyhidpp/pyhidpp/core/connected_device.py:569-571 | the loop reads at most one record per remaining entity, all of them on success, each naming its entity index in order |
| DeviceIdentity.RecordEntities | Vibration_test_scripts/pyhidpp/pyhidpp/core/connected_device.py:571-574 | records are appended in order; the transport id changes only to the pid of an active main-application entity, and stays when there is none |
| DeviceIdentity.LastMainEntityWins | Vibration_test_scripts/pyhidpp/pyhidpp/core/connected_device.py:573-574 | the last active main-application entity read decides the transport id |
| DeviceIdentity.ReadEntities | Vibration_test_scripts/pyhidpp/pyhidpp/core/connected_device.py:569-574 | the records read are kept, in entity order after the earlier ones, even when a later read raises; on success there is one per entity; only the entity list and transport id change |
| DeviceName.GetDeviceNameCountRequest | Vibration_test_scripts/pyhidpp/pyhidpp/features/x0005.py:17 | the name length request is function 0 without params |
| DeviceName.GetDeviceNameRequest | Vibration_test_scripts/pyhidpp/pyhidpp/features/x0005.py:29-31 | request k is function 1 asking for the characters from offset 16k |
| DeviceName.GetDeviceTypeRequest | Vibration_test_scripts/pyhidpp/pyhidpp/features/x0005.py:9 | the type request is function 2 without params |
| DeviceName.ParseDeviceType | Vibration_test_scripts/pyhidpp/pyhidpp/features/x0005.py:14 | the type is the table entry for the little-endian u32 of p0..3 (0 when fewer than four params), and an unknown code raises KeyError |
| DeviceName.DeviceTypeCodes | Vibration_test_scripts/pyhidpp/pyhidpp/core/utils.py:73-93 | the type table names exactly the codes 0 to 18 |
| DeviceName.DeviceTypeRoundTrip | Vibration_test_scripts/pyhidpp/pyhidpp/features/x0005.py:14 | a known code sent as a little-endian u32 reads back as its name |
| DeviceName.ShortTypeReplyIsKeyboard | Vibration_test_scripts/pyhidpp/pyhidpp/features/x0005.py:14 | a reply with fewer than four params reads as code 0, a keyboard |
| DeviceName.ParseNameCount | Vibration_test_scripts/pyhidpp/pyhidpp/features/x0005.py:22-23 | the name length is p0, and an empty reply raises IndexError |
| DeviceName.GetDeviceType | Vibration_test_scripts/pyhidpp/pyhidpp/features/x0005.py:8-14 | a returned type is always one of the table's names; only KeyError or IndexError can be raised |
| DeviceName.GetDeviceNameCount | Vibration_test_scripts/pyhidpp/pyhidpp/features/x0005.py:16-23 | the length read changes at most the directory and raises only IndexError |
| DeviceName.NameRequestCount | Vibration_test_scripts/pyhidpp/pyhidpp/features/x0005.py:26-28 | a non-negative length makes length // 16 + 1 requests, which cover every character; a negative one makes none |
| DeviceName.ReadNameChunks | Vibration_test_scripts/pyhidpp/pyhidpp/features/x0005.py:28-37 | the loop only extends the characters read so far, and raises only IndexError or ValueError |
| DeviceName.GetDeviceName | Vibration_test_scripts/pyhidpp/pyhidpp/features/x0005.py:25-39 | a negative length gives the empty name without requests; a returned name never ends with a NUL |
| DeviceName.NameReply | Vibration_test_scripts/pyhidpp/pyhidpp/features/feature.py:72-76 | the device's chunk reply is accepted iff the feature's index is not the error index |
| DeviceName.NameStep | Vibration_test_scripts/pyhidpp/pyhidpp/features/x0005.py:29-37 | one answered chunk request sends request k and appends that chunk's characters |
| DeviceName.ChunksReadInOrder | Vibration_test_scripts/pyhidpp/pyhidpp/features/x0005.py:28-37 | a device that answers every chunk request makes the loop read the characters of all chunks, in order |
| DeviceName.NameFromChunks | Vibration_test_scripts/pyhidpp/pyhidpp/features/x0005.py:25-39 | the name is the characters of all chunks with the trailing NULs removed |
| IntCodec.U16ToListLe | Vibration_test_scripts/pyhidpp/pyhidpp/core/utils.py:103-104 | two bytes, low byte first, whose little-endian value is v |
| IntCodec.U16ToListBe | Vibration_test_scripts/pyhidpp/pyhidpp/core/utils.py:107-108 | two bytes whose big-endian value is v, the reverse of the little-endian encoding |
| IntCodec.I16ToListLe | Vibration_test_scripts/pyhidpp/pyhidpp/core/utils.py:111-112 | two bytes whose little-endian two's-complement reading is v |
| IntCodec.I16ToListBe | Vibration_test_scripts/pyhidpp/pyhidpp/core/utils.py:115-116 | two bytes whose big-endian two's-complement reading is v, the reverse of the little-endian encoding |
| IntCodec.U32ToListLe | Vibration_test_scripts/pyhidpp/pyhidpp/core/utils.py:119-120 | four bytes whose little-endian value is v |
| IntCodec.U32ToListBe | Vibration_test_scripts/pyhidpp/pyhidpp/core/utils.py:123-124 | four bytes whose big-endian value is v, the reverse of the little-endian encoding |
| IntCodec.I32ToListLe | Vibration_test_scripts/pyhidpp/pyhidpp/core/utils.py:127-128 | four bytes whose little-endian two's-complement reading is v |
| IntCodec.I32ToListBe | Vibration_test_scripts/pyhidpp/pyhidpp/core/utils.py:131-132 | four bytes whose big-endian two's-complement reading is v, the reverse of the little-endian encoding |
| IntCodec.ListToU16Le | Vibration_test_scripts/pyhidpp/pyhidpp/core/utils.py:143-147 | 0 for a list that is not two long; for two bytes, the u16 whose little-endian encoding is the list |
| IntCodec.ListToU16Be | Vibration_test_scripts/pyhidpp/pyhidpp/core/utils.py:150-154 | 0 for a list that is not two long; for two bytes, the u16 whose big-endian encoding is the list |
| IntCodec.ListToI16Le | Vibration_test_scripts/pyhidpp/pyhidpp/core/utils.py:157-161 | 0 for a list that is not two long; for two bytes, the i16 whose little-endian encoding is the list |
| IntCodec.ListToI16Be | Vibration_test_scripts/pyhidpp/pyhidpp/core/utils.py:164-168 | 0 for a list that is not two long; for two bytes, the i16 whose big-endian encoding is the list |
| IntCodec.ListToU32Le | Vibration_test_scripts/pyhidpp/pyhidpp/core/utils.py:171-175 | 0 for a list that is not four long; for four bytes, a u32 |
| IntCodec.ListToU32Be | Vibration_test_scripts/pyhidpp/pyhidpp/core/utils.py:178-182 | 0 for a list that is not four long; for four bytes, a u32 |
| IntCodec.ListToI32Le | Vibration_test_scripts/pyhidpp/pyhidpp/core/utils.py:185-189 | 0 for a list that is not four long; for four bytes, an i32 |
| IntCodec.ListToI32Be | Vibration_test_scripts/pyhidpp/pyhidpp/core/utils.py:192-196 | 0 for a list that is not four long; for four bytes, an i32 |
| IntCodec.ListToU8 | Vibration_test_scripts/pyhidpp/pyhidpp/core/utils.py:220-224 | 0 for a list that is not one long; for one byte, that byte |
| IntCodec.ListToI8 | Vibration_test_scripts/pyhidpp/pyhidpp/core/utils.py:213-217 | 0 for a list that is not one long; for one byte b, the value in [-128, 128) congruent to b, so b - 256 when b >= 128 |
| IntCodec.U16RoundTrip | Vibration_test_scripts/pyhidpp/pyhidpp/core/utils.py:103-108 | every u16 decodes back from its little- and big-endian encodings |
| IntCodec.I16RoundTrip | Vibration_test_scripts/pyhidpp/pyhidpp/core/utils.py:111-116 | every i16 decodes back from its little- and big-endian encodings |
| IntCodec.U32RoundTrip | Vibration_test_scripts/pyhidpp/pyhidpp/core/utils.py:119-124 | every u32 decodes back from its little- and big-endian encodings |
| IntCodec.I32RoundTrip | Vibration_test_scripts/pyhidpp/pyhidpp/core/utils.py:127-132 | every i32 decodes back from its little- and big-endian encodings |
| IntCodec.U32Inverse | Vibration_test_scripts/pyhidpp/pyhidpp/core/utils.py:171-196 | every four-byte list is the encoding, in either order and either signedness, of the value it decodes to |
| IntCodec.ZFill | Vibration_test_scripts/pyhidpp/pyhidpp/core/utils.py:99 | zero filling never shortens a string and pads it to the width |
| IntCodec.HexEntryOfByte | Vibration_test_scripts/pyhidpp/pyhidpp/core/utils.py:99 | a byte dumps as exactly two upper-case hex digits, high nibble first |
| IntCodec.HexDigitValue | Vibration_test_scripts/pyhidpp/pyhidpp/core/utils.py:99 | every hex digit written reads back as its value |
| IntCodec.HexStringRoundTrip | Vibration_test_scripts/pyhidpp/pyhidpp/core/utils.py:98-101 | the dump of a byte list has two characters per byte and one space between neighbours, and it reads back as the same list |
| Packing.HiLoSplit | Vibration_test_scripts/pyhidpp/pyhidpp/features/x19c0.py:107-112 | splitting a value into its high and low byte and joining them again keeps it modulo 2^16 |
| Packing.SplitHiLo | Vibration_test_scripts/pyhidpp/pyhidpp/features/x19c0.py:84-85 | joining two bytes and splitting the result gives the two bytes back |
| Packing.SliceAssign | Vibration_test_scripts/pyhidpp/pyhidpp/features/x9201.py:23 | a slice assignment keeps the list before the slice, puts the values in, keeps the list after it, and changes the length by the difference between the values and the slice |
| Packing.SliceAssignInPlace | Vibration_test_scripts/pyhidpp/pyhidpp/features/x9201.py:36 | a slice assignment exactly as long as its values keeps the length and replaces the slice |
| Packing.PackU16Be | Vibration_test_scripts/pyhidpp/pyhidpp/core/utils.py:107-108 | packing succeeds iff the value fits 16 bits, else raises struct.error, and the packed bytes decode back to the value |
| Packing.PackI16Be | Vibration_test_scripts/pyhidpp/pyhidpp/core/utils.py:115-116 | packing succeeds iff the value fits a signed 16 bits, else raises struct.error, and the packed bytes decode back to the value |
| Packing.UnpackI16Be | Vibration_test_scripts/pyhidpp/pyhidpp/features/x18e9.py:22-30 | unpacking succeeds iff the list is two bytes; a non-byte raises ValueError first, a wrong length struct.error; the result packs back to the list |
| Packing.I16PackRoundTrip | Vibration_test_scripts/pyhidpp/pyhidpp/features/x18e9.py:39-45 | what is packed as a signed 16-bit value unpacks to the same value |
| Packing.U16AtReadsSlice | Vibration_test_scripts/pyhidpp/pyhidpp/core/utils.py:150-154 | reading a big-endian u16 from a two-wide slice of a list gives the pair at that index, and 0 past the end |
| Packing.U16AtBe16 | Vibration_test_scripts/pyhidpp/pyhidpp/core/utils.py:107-108 | a 16-bit value stored high byte first is read back from the same index |
| Packing.PutU16s | Vibration_test_scripts/pyhidpp/pyhidpp/features/x9205.py:86-97 | successive u16 stores into a payload fail only with struct.error and never change its length |
| Packing.PutU16sOk | Vibration_test_scripts/pyhidpp/pyhidpp/features/x9205.py:86-97 | the stores succeed exactly when every value fits 16 bits |
| Packing.PutU16sFrame | Vibration_test_scripts/pyhidpp/pyhidpp/features/x9205.py:86-97 | successful stores leave the payload outside the written pairs unchanged |
| Packing.PutU16sReadBack | Vibration_test_scripts/pyhidpp/pyhidpp/features/x9205.py:86-97 | after successful stores each value reads back from its own pair |
| Packing.PutU16sLays | Vibration_test_scripts/pyhidpp/pyhidpp/features/x9205.py:86-97 | successful stores are the payload before the pairs, the values' pairs in order, then the rest of the payload |
| Packing.PairsAppend | Vibration_test_scripts/pyhidpp/pyhidpp/features/x9205.py:86-97 | the pairs of two value lists joined are the two lists' pairs joined |
| Packing.FourPairsAfterHead | Vibration_test_scripts/pyhidpp/pyhidpp/features/x9201.py:91-101 | four stores after a leading byte keep that byte and read back as the four values in order |
| Packing.TupleIndexStore | Vibration_test_scripts/pyhidpp/pyhidpp/features/x9205.py:86-97 | a store through a tuple index raises struct.error when the value does not fit 16 bits, and TypeError otherwise; the list is never changed |
| Text.NatToString | Vibration_test_scripts/pyhidpp/pyhidpp/core/connected_device.py:441 | the decimal text of a non-negative number is all digits |
| Text.IntToString | Vibration_test_scripts/pyhidpp/pyhidpp/core/connected_device.py:441 | the decimal text of any number is digits with at most a leading minus sign |
| Text.ParseInt | Vibration_test_scripts/pyhidpp/pyhidpp/features/x0003.py:43 | a text of plain decimal digits parses; anything else, including an empty text or a hex letter, raises ValueError |
| Text.NatToStringRoundTrip | Vibration_test_scripts/pyhidpp/pyhidpp/core/connected_device.py:441 | the decimal digits of a number read back as the number |
| Text.IntToStringInjective | Vibration_test_scripts/pyhidpp/pyhidpp/core/connected_device.py:441 | equal decimal texts come from equal numbers |
| Text.HexLowerIsDecimal | Vibration_test_scripts/pyhidpp/pyhidpp/features/x0003.py:43 | the hex text of a number is all decimal digits exactly when every nibble is below ten |
| Text.Chr | Vibration_test_scripts/pyhidpp/pyhidpp/features/x0005.py:37 | a byte always becomes the character with that code; outside the Unicode range ValueError is raised |
| Text.Chars | Vibration_test_scripts/pyhidpp/pyhidpp/features/x0005.py:37 | a list of bytes becomes one character per byte with the same code; it raises ValueError exactly when some entry is not a code point |
| Text.RStripNul | Vibration_test_scripts/pyhidpp/pyhidpp/features/x0005.py:38 | stripping keeps a prefix that does not end in NUL and drops only NULs |
| Text.SplitCounts | Vibration_test_scripts/pyhidpp/pyhidpp/core/discovery.py:29-30 | splitting gives one field more than there are separators, and no field holds a separator |
| Text.JoinSplit | Vibration_test_scripts/pyhidpp/pyhidpp/core/discovery.py:29-30 | joining the fields back with the separator gives the text |
| ForceButton.CapabilitiesRequest | Vibration_test_scripts/pyhidpp/pyhidpp/features/x19c0.py:17 | the capability request is function 0 without params |
| ForceButton.ButtonCapabilitiesRequest | Vibration_test_scripts/pyhidpp/pyhidpp/features/x19c0.py:41 | the button capability request is function 1 with the button id |
| ForceButton.ButtonConfigRequest | Vibration_test_scripts/pyhidpp/pyhidpp/features/x19c0.py:75 | the configuration request is function 2 with the button id |
| ForceButton.SetButtonConfigRequest | Vibration_test_scripts/pyhidpp/pyhidpp/features/x19c0.py:106-112 | function 3 with the button id, then each threshold's high and low byte, so only the thresholds modulo 2^16 reach the device |
| ForceButton.ResetButtonConfigRequest | Vibration_test_scripts/pyhidpp/pyhidpp/features/x19c0.py:140 | the reset request is function 4 with the button id |
| ForceButton.ParseCapabilities | Vibration_test_scripts/pyhidpp/pyhidpp/features/x19c0.py:21-27 | the button count is p0, and an empty reply reads as None |
| ForceButton.ParseButtonCapabilities | Vibration_test_scripts/pyhidpp/pyhidpp/features/x19c0.py:45-61 | fewer than nine params read as None; otherwise four big-endian pairs at 0, 2, 4, 6 and the threshold count p8 |
| ForceButton.ButtonCapabilitiesRoundTrip | Vibration_test_scripts/pyhidpp/pyhidpp/features/x19c0.py:49-61 | capabilities within their field widths are read back from the reply that carries them |
| ForceButton.ParseThresholds | Vibration_test_scripts/pyhidpp/pyhidpp/features/x19c0.py:79-90 | fewer than four params read as None; otherwise L1 from p0..1 and L2 from p2..3, big-endian |
| ForceButton.ThresholdsRoundTrip | Vibration_test_scripts/pyhidpp/pyhidpp/features/x19c0.py:84-88 | the thresholds a device reports are read back modulo 2^16 |
| ForceButton.ParseEcho | Vibration_test_scripts/pyhidpp/pyhidpp/features/x19c0.py:116-126 | fewer than five params read as None; otherwise the button id p0 and the two big-endian thresholds |
| ForceButton.SetThenEcho | Vibration_test_scripts/pyhidpp/pyhidpp/features/x19c0.py:106-126 | packing the thresholds and parsing the echo gives the button id and both thresholds modulo 2^16 |
| ForceButton.SetButtonConfigEchoed | Vibration_test_scripts/pyhidpp/pyhidpp/features/x19c0.py:95-129 | on a known feature, setting sends exactly the packed request, and a device that echoes it makes the call report the values modulo 2^16 |
| ForceButton.ShortConfigReplyIsNone | Vibration_test_scripts/pyhidpp/pyhidpp/features/x19c0.py:79-81 | a configuration reply too short for both thresholds reads as None |
| X9402.ReadMeasurementRequest | Vibration_test_scripts/pyhidpp/pyhidpp/features/x9402.py:17 | the measurement request is function 2 with the custom parameter |
| X9402.ReadCalDataRequest | Vibration_test_scripts/pyhidpp/pyhidpp/features/x9402.py:68 | the calibration read is function 4 with the custom parameter |
| X9402.MonitorModeRequest | Vibration_test_scripts/pyhidpp/pyhidpp/features/x9402.py:45-48 | function 5 with a zero, then the low and high byte of the argument, which together give it back modulo 2^16 |
| X9402.Preload | Vibration_test_scripts/pyhidpp/pyhidpp/features/x9402.py:35-38 | a preload byte up to 128 is kept, and a larger one b becomes 240 - b |
| X9402.Reading | Vibration_test_scripts/pyhidpp/pyhidpp/features/x9402.py:29-34 | a 16-bit reading above 2048 is negative, by the two's-complement 65536 |
| X9402.ReadingRoundTrip | Vibration_test_scripts/pyhidpp/pyhidpp/features/x9402.py:29-34 | every reading a device can report is decoded from its low and high byte |
| X9402.ReadingAsWrittenOffByOne | Vibration_test_scripts/pyhidpp/pyhidpp/features/x9402.py:29-34 | as written, every negative reading comes out one too high, and -1 reads as 0 |
| X9402.ReadingAsWrittenInRange | Vibration_test_scripts/pyhidpp/pyhidpp/features/x9402.py:29-34 | as written a reading in range decodes to itself when non-negative and to one more when negative |
| X9402.ParseMeasurementAsWritten | Vibration_test_scripts/pyhidpp/pyhidpp/features/x9402.py:24-40 | fewer than six params read as None; otherwise the preload is decoded from p5 |
| X9402.ParseMeasurement | Vibration_test_scripts/pyhidpp/pyhidpp/features/x9402.py:24-40 | fewer than six params read as None; otherwise the preload is decoded from p5 and the readings by two's complement |
| X9402.MeasurementRoundTrip | Vibration_test_scripts/pyhidpp/pyhidpp/features/x9402.py:28-40 | a reading, baseline and preload in range come back from the reply that carries them |
| X9402.WriteCalDataRequestAsWritten | Vibration_test_scripts/pyhidpp/pyhidpp/features/x9402.py:51-65 | as written, function 3 with seven params, and all three high bytes are the nominal threshold's |
| X9402.WriteCalDataRequest | Vibration_test_scripts/pyhidpp/pyhidpp/features/x9402.py:51-65 | function 3 with a zero, then each threshold's low byte followed by its own high byte |
| X9402.ParseCalDataAsWritten | Vibration_test_scripts/pyhidpp/pyhidpp/features/x9402.py:73-82 | fewer than seven params read as None |
| X9402.ParseCalData | Vibration_test_scripts/pyhidpp/pyhidpp/features/x9402.py:73-82 | fewer than seven params read as None; each threshold is read low byte first |
| X9402.CalDataRoundTrip | Vibration_test_scripts/pyhidpp/pyhidpp/features/x9402.py:51-82 | thresholds written by the corrected writer come back from the corrected reader |
| X9402.CalDataAsWrittenDropsHighBytes | Vibration_test_scripts/pyhidpp/pyhidpp/features/x9402.py:78-80 | as written, a reply of bytes gives only the low byte of each threshold |
| X9402.CalDataAsWrittenLosesThresholds | Vibration_test_scripts/pyhidpp/pyhidpp/features/x9402.py:51-80 | nominal 1000 with thresholds 800 and 1200 goes out with 944 as the high threshold and reads back as 232, 32, 176 |
| X9402.ReadMeasurement | Vibration_test_scripts/pyhidpp/pyhidpp/features/x9402.py:7-44 | on a known feature exactly the function-2 request with the custom parameter is sent and the connection kept; a value comes only from a known feature |
| X9402.ReadMeasurementCorrected | Vibration_test_scripts/pyhidpp/pyhidpp/features/x9402.py:7-44 | with the two's-complement decode, the same single request |
| X9402.ReadCalData | Vibration_test_scripts/pyhidpp/pyhidpp/features/x9402.py:67-82 | on a known feature exactly the function-4 request with the custom parameter is sent and the connection kept |
| X9402.ReadCalDataCorrected | Vibration_test_scripts/pyhidpp/pyhidpp/features/x9402.py:67-82 | with the corrected reader, the same single request |
| X9402.WriteCalData | Vibration_test_scripts/pyhidpp/pyhidpp/features/x9402.py:51-66 | as written the one request sent has sixteen params with each threshold's low byte at 1, 3 and 5 and the nominal threshold's high byte at 2, 4 and 6 |
| X9402.WriteCalDataCorrected | Vibration_test_scripts/pyhidpp/pyhidpp/features/x9402.py:51-66 | with each threshold's own high byte, the one request sent reads back through the corrected reader as the three thresholds |
| X9402.MeasurementAnswered | Vibration_test_scripts/pyhidpp/pyhidpp/features/x9402.py:7-40 | as written a device reporting a reading and baseline in range is read exactly when they are non-negative and one too high when negative |
| X9402.MeasurementAnsweredCorrected | Vibration_test_scripts/pyhidpp/pyhidpp/features/x9402.py:7-40 | with the two's-complement decode a device reporting a reading and baseline in range is read exactly |
| X9402.CalDataAnswered | Vibration_test_scripts/pyhidpp/pyhidpp/features/x9402.py:67-82 | as written a reply of seven or more bytes reads as its low bytes 1, 3 and 5 alone |
| X9402.CalDataAnsweredCorrected | Vibration_test_scripts/pyhidpp/pyhidpp/features/x9402.py:51-82 | with the corrected reader, a device answering with the corrected write's params reports the three thresholds |
| X8129.TypeOfCode | Vibration_test_scripts/pyhidpp/pyhidpp/features/x8129.py:24-33 | the type numbers 0 to 8 name a type, and any other number raises ValueError |
| X8129.TypeCodeRoundTrip | Vibration_test_scripts/pyhidpp/pyhidpp/features/x8129.py:24-33 | type numbers and types correspond one to one |
| X8129.ReadValue | Vibration_test_scripts/pyhidpp/pyhidpp/features/x8129.py:51-69 | no type or TNone reads as None; otherwise the value is read from the type's width of bytes at the offset, ValueError for a non-byte and struct.error for a short slice; a Bool is true iff its byte is non-zero |
| X8129.WriteValue | Vibration_test_scripts/pyhidpp/pyhidpp/features/x8129.py:71-89 | an integer type packs a fitting value to exactly its width of big-endian bytes and raises struct.error otherwise; TNone packs to None |
| X8129.ReadPlaced | Vibration_test_scripts/pyhidpp/pyhidpp/features/x8129.py:51-69 | reading at the offset where a type's bytes were placed decodes exactly those bytes |
| X8129.DecodeWritten | Vibration_test_scripts/pyhidpp/pyhidpp/features/x8129.py:71-89 | decoding the bytes an integer was packed as gives the integer |
| X8129.ValueRoundTrip | Vibration_test_scripts/pyhidpp/pyhidpp/features/x8129.py:51-89 | an integer written with a type and read back with the same type, at any offset of a reply, is the value written |
| X8129.BoolRoundTrip | Vibration_test_scripts/pyhidpp/pyhidpp/features/x8129.py:64-65 | a written Bool reads back as the truth of the value |
| X8129.ParseChunk | Vibration_test_scripts/pyhidpp/pyhidpp/features/x8129.py:113 | a name or description chunk is the characters of the first seventeen params, one per param |
| X8129.DriverAttributeRequest | Vibration_test_scripts/pyhidpp/pyhidpp/features/x8129.py:104 | function 1 with the driver, the attribute number and the offset |
| X8129.ParseDriverAttribute | Vibration_test_scripts/pyhidpp/pyhidpp/features/x8129.py:108-115 | Infos gives the curve and function counts from p0 and p1; Name and Description give a chunk |
| X8129.CurveAttributeRequest | Vibration_test_scripts/pyhidpp/pyhidpp/features/x8129.py:121 | function 2 with the driver, curve, attribute number and offset |
| X8129.ParseCurveAttribute | Vibration_test_scripts/pyhidpp/pyhidpp/features/x8129.py:125-136 | Type gives the curve type from p0 and the flags p1; the index bounds are u32; the value bounds use the given type; Name and Description give a chunk |
| X8129.FunctionAttributeRequest | Vibration_test_scripts/pyhidpp/pyhidpp/features/x8129.py:164 | function 7 with the driver, function, attribute number and offset |
| X8129.ParseFunctionAttribute | Vibration_test_scripts/pyhidpp/pyhidpp/features/x8129.py:168-174 | ArgCount gives p0; Name and Description give a chunk |
| X8129.ArgumentAttributeRequest | Vibration_test_scripts/pyhidpp/pyhidpp/features/x8129.py:180 | function 8 with the driver, function, argument, attribute number and offset |
| X8129.ParseArgumentAttribute | Vibration_test_scripts/pyhidpp/pyhidpp/features/x8129.py:184-192 | Type gives the type from p0; the four value attributes use the given type; Name and Description give a chunk |
| X8129.CurvePointRequest | Vibration_test_scripts/pyhidpp/pyhidpp/features/x8129.py:142-143 | function 3 with the driver, the curve and the point index as a big-endian u32; an index outside u32 raises struct.error |
| X8129.ParsePoint | Vibration_test_scripts/pyhidpp/pyhidpp/features/x8129.py:147-149 | the point value is read at offset 0 with the curve's type and the timestamp as a u32 at offset 4 |
| X8129.PointRoundTrip | Vibration_test_scripts/pyhidpp/pyhidpp/features/x8129.py:147-149 | a 16-bit point value followed by a timestamp reads back as both |
| X8129.SetCurvePointRequest | Vibration_test_scripts/pyhidpp/pyhidpp/features/x8129.py:155-157 | function 4 with the driver, curve, u32 index and the typed value; an index outside u32 raises struct.error; a missing or TNone type raises TypeError when None is added to the list |
| X8129.SetCurvePointLayout | Vibration_test_scripts/pyhidpp/pyhidpp/features/x8129.py:155-157 | the set request carries the index and then the value, each readable back at its offset |
| X8129.SetArgumentRequest | Vibration_test_scripts/pyhidpp/pyhidpp/features/x8129.py:197-198 | function 9 with the driver, function, argument and the typed value; a missing or TNone type raises TypeError |
| X8129.MissingArgumentSendsNothing | Vibration_test_scripts/pyhidpp/pyhidpp/features/x8129.py:100-103 | a missing argument sends nothing: the driver attribute gives None and the curve attribute gives (None, None) |
| X8129.CurvePointAnswered | Vibration_test_scripts/pyhidpp/pyhidpp/features/x8129.py:138-149 | on a known feature the point request carries the driver, the curve and the big-endian index, and a reply holding value and timestamp is read back |
| X8129.ReadName | Vibration_test_scripts/pyhidpp/pyhidpp/features/x8129.py:215-221 | a name read in full ends with a NUL |
| X8129.SetCurvePoint | Vibration_test_scripts/pyhidpp/pyhidpp/features/x8129.py:151-158 | a missing argument sends nothing and gives None; an index outside u32 raises struct.error and a missing or TNone type TypeError, both before sending; otherwise on a known feature exactly the set request is sent |
| X8129.SetFunctionArgument | Vibration_test_scripts/pyhidpp/pyhidpp/features/x8129.py:194-199 | a missing driver, function or argument sends nothing and gives None; a missing or TNone type raises TypeError before sending; otherwise on a known feature exactly the set request is sent |
| X8129.FindDriverIndex | Vibration_test_scripts/pyhidpp/pyhidpp/features/x8129.py:210-231 | an exception of `get_info` propagates and no reply raises TypeError at `range(None)`; a found index is below the count, matches the name, and every driver before it was read in full and differs; not found means every driver below the count differs |
| X8129.SearchFoundFirst | Vibration_test_scripts/pyhidpp/pyhidpp/features/x8129.py:210-230 | a found index matches the name, and every driver before it was read in full and differs |
| X8129.SearchNotFound | Vibration_test_scripts/pyhidpp/pyhidpp/features/x8129.py:210-230 | not found means every driver below the count was read in full and none matches |
| X8129.FirstMatchFound | Vibration_test_scripts/pyhidpp/pyhidpp/features/x8129.py:214-224 | the first matching driver after drivers that all read in full and differ is found |
| X8129.NoDriversNotFound | Vibration_test_scripts/pyhidpp/pyhidpp/features/x8129.py:212-214 | a driver count of zero or less finds nothing without reading a name |
| X9205.Block | Vibration_test_scripts/pyhidpp/pyhidpp/features/x9205.py:9-11 | every payload is sixteen params, zero except the sensor index in the last |
| X9205.SensorRequest | Vibration_test_scripts/pyhidpp/pyhidpp/features/x9205.py:26-75 | reset, shutdown and the calibration start, stop and read send the bare sensor block to their function |
| X9205.ReadRegisterRequest | Vibration_test_scripts/pyhidpp/pyhidpp/features/x9205.py:8-12 | function 0 with the register at p0 and the sensor index at p15, zeros between |
| X9205.WriteRegisterRequest | Vibration_test_scripts/pyhidpp/pyhidpp/features/x9205.py:18-23 | the register write fails only with struct.error |
| X9205.WriteRegisterLayout | Vibration_test_scripts/pyhidpp/pyhidpp/features/x9205.py:18-23 | the register write succeeds exactly for 16-bit values and is function 1 with the register at p0, the value big-endian at p1..2 and the sensor at p15 |
| X9205.MonitorTestRequest | Vibration_test_scripts/pyhidpp/pyhidpp/features/x9205.py:41-47 | the monitor test fails only with struct.error |
| X9205.MonitorTestLayout | Vibration_test_scripts/pyhidpp/pyhidpp/features/x9205.py:41-47 | the monitor test succeeds exactly for a 16-bit count and is function 4 with the count at p0..1, threshold p2, mode p3 and the sensor at p15 |
| X9205.ParseRegister | Vibration_test_scripts/pyhidpp/pyhidpp/features/x9205.py:13-15 | the register is p0 and its value the big-endian u16 of p1..2, 0 when that slice is short; an empty reply raises IndexError |
| X9205.ParseCalibration | Vibration_test_scripts/pyhidpp/pyhidpp/features/x9205.py:62-69 | the turn count is p0 and the six bounds come from the big-endian pairs from p1; an empty reply raises IndexError |
| X9205.WriteCalibrationAlwaysRaises | Vibration_test_scripts/pyhidpp/pyhidpp/features/x9205.py:86-97 | as written the method never reaches the device: a tuple index raises, TypeError whenever the values fit |
| X9205.WriteCalibration | Vibration_test_scripts/pyhidpp/pyhidpp/features/x9205.py:86-97 | as written nothing is ever sent and the connection is kept: building the payload raises, TypeError whenever the values fit 16 bits |
| X9205.WriteCalibrationCorrected | Vibration_test_scripts/pyhidpp/pyhidpp/features/x9205.py:86-97 | with slice stores, bounds outside 16 bits raise struct.error before sending; otherwise exactly one request of sixteen params, which read back as the calibration and carry the sensor index in the last slot |
| X9205.WriteCalibrationRequest | Vibration_test_scripts/pyhidpp/pyhidpp/features/x9205.py:86-97 | the corrected write fails only with struct.error and is function 8 with sixteen params |
| X9205.InRangeBounds | Vibration_test_scripts/pyhidpp/pyhidpp/features/x9205.py:89-94 | a calibration is in range exactly when each of its six bounds fits 16 bits |
| X9205.ParseCalibrationOf | Vibration_test_scripts/pyhidpp/pyhidpp/features/x9205.py:76-83 | params with the turns at 0 and the bounds in the six pairs from 1 parse to that calibration |
| X9205.CalibrationRoundTrip | Vibration_test_scripts/pyhidpp/pyhidpp/features/x9205.py:72-97 | the corrected write succeeds exactly for 16-bit bounds, and its params parse back to the calibration written, with the sensor at p15 |
| X9205.CalibrationHeadKept | Vibration_test_scripts/pyhidpp/pyhidpp/features/x9205.py:88-95 | storing the bounds keeps the turns at p0 and the sensor at p15 |
| X9205.CalibrationBoundsLaid | Vibration_test_scripts/pyhidpp/pyhidpp/features/x9205.py:89-94 | storing the bounds makes them read back pair by pair |
| X9205.DecodeMonitorData | Vibration_test_scripts/pyhidpp/pyhidpp/features/x9205.py:102-113 | a short report decodes its missing fields as 0 |
| X9205.MonitorReport | Vibration_test_scripts/pyhidpp/pyhidpp/features/x9205.py:102-113 | the report a device sends is sixteen bytes |
| X9205.I8RoundTrip | Vibration_test_scripts/pyhidpp/pyhidpp/features/x9205.py:108-110 | a signed byte is read back from its two's-complement byte |
| X9205.MonitorRoundTrip | Vibration_test_scripts/pyhidpp/pyhidpp/features/x9205.py:102-113 | every representable monitor report decodes to the fields it was built from |
| X9205.UnansweredReadRaises | Vibration_test_scripts/pyhidpp/pyhidpp/features/x9205.py:12-13 | reading a register of a device that does not answer raises AttributeError |
| X9205.WrittenCalibrationReadBack | Vibration_test_scripts/pyhidpp/pyhidpp/features/x9205.py:72-97 | a device that answers the calibration read with the block the corrected write sent reports the calibration written |
| X9209.Block | Vibration_test_scripts/pyhidpp/pyhidpp/features/x9209.py:9-10 | every payload is sixteen params, zero except the sensor index first |
| X9209.SensorRequest | Vibration_test_scripts/pyhidpp/pyhidpp/features/x9209.py:31-82 | reset, shutdown and the calibration start, stop and read send the bare sensor block to their function |
| X9209.ReadRegisterRequest | Vibration_test_scripts/pyhidpp/pyhidpp/features/x9209.py:8-12 | function 0 with the sensor at p0 and the register at p1, zeros after |
| X9209.WriteRegisterRequest | Vibration_test_scripts/pyhidpp/pyhidpp/features/x9209.py:19-24 | the register write fails only with struct.error |
| X9209.ParseRegister | Vibration_test_scripts/pyhidpp/pyhidpp/features/x9209.py:13-16 | the sensor p0, the register p1 and the value big-endian from p2..3; fewer than two params raise IndexError |
| X9209.WriteRegisterEcho | Vibration_test_scripts/pyhidpp/pyhidpp/features/x9209.py:19-28 | the write succeeds exactly for 16-bit values, and a device echoing it reports exactly the sensor, register and value written |
| X9209.ParseSensor | Vibration_test_scripts/pyhidpp/pyhidpp/features/x9209.py:35-44 | reset and shutdown report the sensor from p0; an empty reply raises IndexError |
| X9209.MonitorTestRequest | Vibration_test_scripts/pyhidpp/pyhidpp/features/x9209.py:47-52 | the monitor test fails only with struct.error |
| X9209.ParseMonitorEcho | Vibration_test_scripts/pyhidpp/pyhidpp/features/x9209.py:53-56 | the monitor reply gives the sensor p0, the count from p1..2 and the threshold from p3; fewer than four params raise IndexError |
| X9209.MonitorEchoMovesThreshold | Vibration_test_scripts/pyhidpp/pyhidpp/features/x9209.py:47-56 | the test succeeds exactly for a 16-bit count; the threshold goes out at p4 but is read back from p3, so an echoing device reports the count written and a zero threshold |
| X9209.ParseAtanRange | Vibration_test_scripts/pyhidpp/pyhidpp/features/x9209.py:63-66 | the calibration replies give the sensor p0 and the minimum and maximum big-endian from p1..4 |
| X9209.WriteCalibrationRequest | Vibration_test_scripts/pyhidpp/pyhidpp/features/x9209.py:89-94 | the corrected write fails only with struct.error and is function 8 with sixteen params |
| X9209.CalibrationRoundTrip | Vibration_test_scripts/pyhidpp/pyhidpp/features/x9209.py:89-98 | the corrected write succeeds exactly for a 16-bit range, and a device echoing it reports the range written |
| X9209.WriteCalibrationAlwaysRaises | Vibration_test_scripts/pyhidpp/pyhidpp/features/x9209.py:92-93 | as written the method never sends: a tuple index raises, TypeError whenever the values fit |
| X9209.WriteCalibration | Vibration_test_scripts/pyhidpp/pyhidpp/features/x9209.py:89-100 | as written nothing is ever sent and the connection is kept: building the payload raises, TypeError whenever the values fit 16 bits |
| X9209.WriteCalibrationCorrected | Vibration_test_scripts/pyhidpp/pyhidpp/features/x9209.py:89-100 | with slice stores, a range outside 16 bits raises struct.error before sending; otherwise exactly one request, whose params read back as the sensor and its range |
| X9209.CalibrateRequest | Vibration_test_scripts/pyhidpp/pyhidpp/features/x9209.py:101-106 | function 9 with the sensor, reference index and reference value first, zeros after |
| X9209.ParseCalibrated | Vibration_test_scripts/pyhidpp/pyhidpp/features/x9209.py:107-111 | the three echoed params and the arctangent big-endian from p3..4; fewer than three params raise IndexError |
| X9209.DecodeMonitorData | Vibration_test_scripts/pyhidpp/pyhidpp/features/x9209.py:116-124 | the sensor p0 must be present; the other fields are slices, so a short report reads them as 0 |
| X9209.MonitorRoundTrip | Vibration_test_scripts/pyhidpp/pyhidpp/features/x9209.py:116-124 | every representable monitor report decodes to its fields, whatever the unused params 11 to 13 hold |
| X9209.WriteRegisterAnswered | Vibration_test_scripts/pyhidpp/pyhidpp/features/x9209.py:19-28 | on a known feature a value outside 16 bits sends nothing and raises struct.error; one in range sends the packed request and an echoing device reports the register written |
| X9201.PlainRequest | Vibration_test_scripts/pyhidpp/pyhidpp/features/x9201.py:43-82 | shutdown, reset and the calibration start, stop and read send sixteen zeros to their own function |
| X9201.ParseCapabilities | Vibration_test_scripts/pyhidpp/pyhidpp/features/x9201.py:13-18 | product number and versions are big-endian pairs from p0..5; a reply shorter than two params reads as zeros instead of raising |
| X9201.ReadRegisterRequestAsWritten | Vibration_test_scripts/pyhidpp/pyhidpp/features/x9201.py:21-25 | the register read as written fails only with struct.error |
| X9201.ReadRegisterRequest | Vibration_test_scripts/pyhidpp/pyhidpp/features/x9201.py:21-25 | the corrected register read fails only with struct.error |
| X9201.ReadRegisterSeventeenParams | Vibration_test_scripts/pyhidpp/pyhidpp/features/x9201.py:23 | both reads succeed exactly for a 16-bit address; the two-byte store into the one-element slice 0:1 leaves seventeen params, one zero more than the corrected request, and the frame built from them is longer than a long report |
| X9201.ReadRegisterShapes | Vibration_test_scripts/pyhidpp/pyhidpp/features/x9201.py:22-24 | the address lands big-endian at p0..1 and the length after it, in both requests |
| X9201.ReadSensorRegister | Vibration_test_scripts/pyhidpp/pyhidpp/features/x9201.py:21-33 | as written an address outside 16 bits raises struct.error before anything is sent; otherwise exactly one long-typed request with the address big-endian, the length and fourteen zeros: seventeen params |
| X9201.ReadSensorRegisterCorrected | Vibration_test_scripts/pyhidpp/pyhidpp/features/x9201.py:21-33 | with the address stored over params 0-1 the request carries the address, the length and thirteen zeros: sixteen params |
| X9201.ParseRegister | Vibration_test_scripts/pyhidpp/pyhidpp/features/x9201.py:26-31 | p0 must be present; lengths 2 and 4 read a big-endian pair or quad, any other length the single byte |
| X9201.WriteRegisterRequest | Vibration_test_scripts/pyhidpp/pyhidpp/features/x9201.py:34-39 | the register write fails only with struct.error |
| X9201.WriteRegisterPadded | Vibration_test_scripts/pyhidpp/pyhidpp/features/x9201.py:36-38 | the write succeeds exactly for a 16-bit address and value; storing two bytes over the four-element slice 3:7 leaves fourteen params, which still go out as a long request with the value at p3..4 |
| X9201.MonitorModeRequest | Vibration_test_scripts/pyhidpp/pyhidpp/features/x9201.py:55-60 | the monitor-mode request fails only with struct.error |
| X9201.MonitorModeLayout | Vibration_test_scripts/pyhidpp/pyhidpp/features/x9201.py:55-60 | it succeeds exactly for a 16-bit count, with the count big-endian at p0..1 and the mode at p2 |
| X9201.ParseCalibration | Vibration_test_scripts/pyhidpp/pyhidpp/features/x9201.py:69-88 | p0 must be present and is the turn count; the ranges are slices |
| X9201.WriteCalibrationRequest | Vibration_test_scripts/pyhidpp/pyhidpp/features/x9201.py:91-100 | the corrected write fails only with struct.error and is function 9 with sixteen params |
| X9201.ParseCalibrationOf | Vibration_test_scripts/pyhidpp/pyhidpp/features/x9201.py:83-88 | params holding the turns and the four pairs min A, min B, max A, max B parse to exactly that calibration |
| X9201.CalibrationRoundTrip | Vibration_test_scripts/pyhidpp/pyhidpp/features/x9201.py:91-101 | the corrected write succeeds exactly for 16-bit values, and a device echoing it reports X as range A and Y as range B |
| X9201.WriteCalibrationAlwaysRaises | Vibration_test_scripts/pyhidpp/pyhidpp/features/x9201.py:96-99 | as written the method never sends: a tuple index raises, TypeError whenever the values fit |
| X9201.WriteCalibration | Vibration_test_scripts/pyhidpp/pyhidpp/features/x9201.py:91-105 | as written nothing is ever sent and the connection is kept: building the payload raises, TypeError whenever the values fit 16 bits |
| X9201.WriteCalibrationCorrected | Vibration_test_scripts/pyhidpp/pyhidpp/features/x9201.py:91-105 | with slice stores, values outside 16 bits raise struct.error before sending; otherwise exactly one request, whose params read back as the calibration |
| X9201.DecodeMonitorData | Vibration_test_scripts/pyhidpp/pyhidpp/features/x9201.py:106-124 | params 4 to 7 must be present and are copied out; the counter slice runs to the end, so it is 0 unless the report has exactly sixteen params |
| X9201.MonitorRoundTrip | Vibration_test_scripts/pyhidpp/pyhidpp/features/x9201.py:106-124 | every representable sixteen-param report decodes to its fields, whatever params 10 to 13 hold |
| X9203.PlainRequest | Vibration_test_scripts/pyhidpp/pyhidpp/features/x9203.py:27-73 | shutdown, reset and the calibration start, stop and read send sixteen zeros to their own function |
| X9203.ReadRegisterRequest | Vibration_test_scripts/pyhidpp/pyhidpp/features/x9203.py:12-15 | function 0 with the register address in p0 and zeros after |
| X9203.WriteRegisterRequest | Vibration_test_scripts/pyhidpp/pyhidpp/features/x9203.py:20-24 | function 1 with the address and value in p0 and p1 and zeros after |
| X9203.ParseRegister | Vibration_test_scripts/pyhidpp/pyhidpp/features/x9203.py:16-17 | the value is p0; an empty reply raises IndexError |
| X9203.MonitorModeRequest | Vibration_test_scripts/pyhidpp/pyhidpp/features/x9203.py:40-44 | the monitor-mode request fails only with struct.error |
| X9203.MonitorModeLayout | Vibration_test_scripts/pyhidpp/pyhidpp/features/x9203.py:40-44 | it succeeds exactly for a 16-bit count, which lands big-endian at p0..1 with the mode at p2 |
| X9203.ParseCalibration | Vibration_test_scripts/pyhidpp/pyhidpp/features/x9203.py:53-73 | p0 must be present and is the turn count; min A, max A, min B, max B are big-endian pairs from p1 |
| X9203.WriteCalibrationRequest | Vibration_test_scripts/pyhidpp/pyhidpp/features/x9203.py:76-84 | the corrected write fails only with struct.error and is function 8 with sixteen params |
| X9203.CalibrationRoundTrip | Vibration_test_scripts/pyhidpp/pyhidpp/features/x9203.py:76-84 | the corrected write succeeds exactly for 16-bit values, and a device echoing it reports X as range A and Y as range B |
| X9203.WriteCalibrationAlwaysRaises | Vibration_test_scripts/pyhidpp/pyhidpp/features/x9203.py:79-82 | as written the method never sends: a tuple index raises, TypeError whenever the values fit |
| X9203.WriteCalibration | Vibration_test_scripts/pyhidpp/pyhidpp/features/x9203.py:76-88 | as written nothing is ever sent and the connection is kept: building the payload raises, TypeError whenever the values fit 16 bits |
| X9203.WriteCalibrationCorrected | Vibration_test_scripts/pyhidpp/pyhidpp/features/x9203.py:76-88 | with slice stores, values outside 16 bits raise struct.error before sending; otherwise exactly one request, whose params read back as the calibration |
| X9203.DecodeMonitorData | Vibration_test_scripts/pyhidpp/pyhidpp/features/x9203.py:89-105 | params 2 to 5 must be present and are copied out; a report shorter than fourteen params reads the counter as 0 |
| X9203.MonitorRoundTrip | Vibration_test_scripts/pyhidpp/pyhidpp/features/x9203.py:89-105 | every representable report decodes to its fields, whatever params 8 to 11 hold and whatever follows param 13 |
| X9203.WrittenCalibrationReadBack | Vibration_test_scripts/pyhidpp/pyhidpp/features/x9203.py:65-84 | a device answering read_calibration with the block the corrected write sent reports X as range A and Y as range B |
| X3617.Nibbles | Vibration_test_scripts/pyhidpp/pyhidpp/features/x3617_legacy.py:122-127 | `hi << 4 \| lo` with a nibble `lo` is `16 * hi + lo` |
| X3617.NibblesSplit | Vibration_test_scripts/pyhidpp/pyhidpp/features/x3617_legacy.py:122-127 | a packed pair of nibbles gives back the high part by shifting and the low nibble by masking |
| X3617.SetAnalogKeyModeRequest | Vibration_test_scripts/pyhidpp/pyhidpp/features/x3617_legacy.py:20-33 | function 1 with the key, the mode and one zero |
| X3617.SetNormalTriggerRequest | Vibration_test_scripts/pyhidpp/pyhidpp/features/x3617_legacy.py:37-47 | function 2 with the key, actuation point and hysteresis |
| X3617.SetRapidTriggerRequest | Vibration_test_scripts/pyhidpp/pyhidpp/features/x3617_legacy.py:51-67 | function 3 with the key, actuation point, sensitivity and continuous status |
| X3617.GetterRequest | Vibration_test_scripts/pyhidpp/pyhidpp/features/x3617_legacy.py:135-152 | the getters 6 to 9 send the key and two zeros |
| X3617.EventBytes | Vibration_test_scripts/pyhidpp/pyhidpp/features/x3617_legacy.py:117-124 | each four-slot event packs into two bytes, slots 1 and 0 then slots 3 and 2, the later slot high |
| X3617.MultiActionPayload | Vibration_test_scripts/pyhidpp/pyhidpp/features/x3617_legacy.py:97-127 | a payload exists exactly when lo is above hi, there are four assignments and at most four four-slot events; it is sixteen bytes with key, points and assignments first, the event bytes from 7, zeros up to 14 and `mode << 4 \| hysteresis` last |
| X3617.MultiActionEventsRoundTrip | Vibration_test_scripts/pyhidpp/pyhidpp/features/x3617_legacy.py:117-124 | with nibble-sized slots, every event is read back from its byte pair |
| X3617.MultiActionNoEvents | Vibration_test_scripts/pyhidpp/pyhidpp/features/x3617_legacy.py:109-127 | in the combine and alternate modes, without events, bytes 7 to 14 stay zero |
| X3617.SetMultiAction | Vibration_test_scripts/pyhidpp/pyhidpp/features/x3617_legacy.py:97-130 | invalid arguments return None and send nothing; valid ones on a known feature send exactly the function-4 payload |
| X1891.ByteAt | Vibration_test_scripts/pyhidpp/pyhidpp/features/x1891.py:9-13 | `(a >> 8k) & 0xFF` is a byte |
| X1891.BytesBe | Vibration_test_scripts/pyhidpp/pyhidpp/features/x1891.py:9-13 | the low n bytes of a value, most significant first |
| X1891.JoinBytesBe | Vibration_test_scripts/pyhidpp/pyhidpp/features/x1891.py:9-13 | joining the n extracted bytes gives the value modulo 2^(8n), for negative values too |
| X1891.AddressBytes | Vibration_test_scripts/pyhidpp/pyhidpp/features/x1891.py:9-13 | the five address bytes run from bits 39..32 down to bits 7..0 |
| X1891.AddressRoundTrip | Vibration_test_scripts/pyhidpp/pyhidpp/features/x1891.py:9-13 | the address bytes spell the address modulo 2^40 |
| X1891.PeriodicMsgParams | Vibration_test_scripts/pyhidpp/pyhidpp/features/x1891.py:7-31 | thirteen params: the address bytes, four settings, the message count high byte first as the count modulo 2^16, radio mode and payload size; also function 5 at lines 81-105 |
| X1891.ContinuousParams | Vibration_test_scripts/pyhidpp/pyhidpp/features/x1891.py:33-53 | RFTxCW and RFRxContinuous send channel, power, the timeout modulo 2^16 high byte first, condition and radio mode |
| X1891.SweepParams | Vibration_test_scripts/pyhidpp/pyhidpp/features/x1891.py:55-79 | both sweeps send six settings and then the sweep count modulo 2^16 high byte first |
| X1891.ReceiveParams | Vibration_test_scripts/pyhidpp/pyhidpp/features/x1891.py:107-128 | eleven params: the address bytes, channel, power, condition, the timeout modulo 2^16 and the radio mode |
| X1891.PeriodicMsgRoundTrip | Vibration_test_scripts/pyhidpp/pyhidpp/features/x1891.py:7-31 | an address below 2^40 and a count below 2^16 are read back in full from the params |
| X1891.SendPeriodicMsgAnswered | Vibration_test_scripts/pyhidpp/pyhidpp/features/x1891.py:7-31 | on a known feature function 0 sends the thirteen params and hands back the reply's params unchanged |
| X1891.SendPeriodicMsgUnanswered | Vibration_test_scripts/pyhidpp/pyhidpp/features/x1891.py:19-31 | without an accepted reply the trailing `.params` raises AttributeError |
| SpiAccess.GetNbDevicesRequest | Vibration_test_scripts/pyhidpp/pyhidpp/features/x1e22.py:7-8 | function 0 with no params |
| SpiAccess.GetSelectedDeviceRequest | Vibration_test_scripts/pyhidpp/pyhidpp/features/x1e22.py:12-13 | function 1 with no params |
| SpiAccess.SelectDeviceRequest | Vibration_test_scripts/pyhidpp/pyhidpp/features/x1e22.py:17-18 | function 2 with the device id and access configuration |
| SpiAccess.SpiDirectAccessRequest | Vibration_test_scripts/pyhidpp/pyhidpp/features/x1e22.py:20-21 | function 3 with the byte count followed by the data bytes |
| SpiAccess.SpiRequestFitsLongReport | Vibration_test_scripts/pyhidpp/pyhidpp/features/x1e22.py:20-21 | a transfer of three to fifteen bytes goes out as one long report with the count first and the data unchanged after it |
| SpiAccess.ParseNbDevices | Vibration_test_scripts/pyhidpp/pyhidpp/features/x1e22.py:9-10 | the count is p0; an empty reply raises IndexError |
| SpiAccess.ParseSelectedDevice | Vibration_test_scripts/pyhidpp/pyhidpp/features/x1e22.py:14-15 | the index is p0, firmware-stopped is bit 0 of p1 and chip-select-enabled bit 1; fewer than two params raise IndexError |
| SpiAccess.SelectedDeviceRoundTrip | Vibration_test_scripts/pyhidpp/pyhidpp/features/x1e22.py:14-15 | the two access flags come back from the byte they were packed into |
| SpiAccess.GetNbDevices | Vibration_test_scripts/pyhidpp/pyhidpp/features/x1e22.py:7-10 | no reply gives None; the only errors are IndexError and AttributeError, and nothing but the directory changes |
| SpiAccess.GetSelectedDevice | Vibration_test_scripts/pyhidpp/pyhidpp/features/x1e22.py:12-15 | no reply gives None; the firmware flag is 0 or 1; the only errors are IndexError and AttributeError |
| SpiAccess.SelectedDeviceAnswered | Vibration_test_scripts/pyhidpp/pyhidpp/features/x1e22.py:12-15 | a device answering with its selection is read back exactly, after one function-1 request |
| SpiAccess.SelectDevice | Vibration_test_scripts/pyhidpp/pyhidpp/features/x1e22.py:17-18 | on a known feature a device id sends exactly the function-2 request; a missing id sends nothing after the feature lookup and gets no reply |
| SpiAccess.SpiDirectAccess | Vibration_test_scripts/pyhidpp/pyhidpp/features/x1e22.py:20-21 | on a known feature exactly the function-3 request is sent and the connection is unchanged |
| X1E02.ParseInfo | Vibration_test_scripts/pyhidpp/pyhidpp/features/x1e02.py:9-13 | the support, persistence and state bitmaps are p0, p1, p2; fewer raise IndexError |
| X1E02.ParseReactInfo | Vibration_test_scripts/pyhidpp/pyhidpp/features/x1e02.py:17-19 | `p0 << 8 \| p1` is the big-endian pair; fewer than two params raise IndexError |
| X1E02.ReactInfoRoundTrip | Vibration_test_scripts/pyhidpp/pyhidpp/features/x1e02.py:15-19 | a 16-bit value sent high byte first is what get_react_info reports |
| X1E02.GettersUnanswered | Vibration_test_scripts/pyhidpp/pyhidpp/features/x1e02.py:7-19 | both getters return None when no accepted reply comes |
| X1E02.ReactInfoAnswered | Vibration_test_scripts/pyhidpp/pyhidpp/features/x1e02.py:15-19 | on a known feature function 3 is sent and the replied 16-bit value is reported |
| X2202.ParseDpi | Vibration_test_scripts/pyhidpp/pyhidpp/features/x2202.py:9-14 | x from p1..2, y from p5..6 and the lift-off distance p9; fewer than ten params raise IndexError |
| X2202.DpiRoundTrip | Vibration_test_scripts/pyhidpp/pyhidpp/features/x2202.py:7-14 | 16-bit resolutions come back from a reply in the getter's layout |
| X2202.SetDpiParams | Vibration_test_scripts/pyhidpp/pyhidpp/features/x2202.py:16-27 | the sensor, x and y modulo 2^16 high byte first, then the lift-off distance |
| X2202.EchoMisplacesY | Vibration_test_scripts/pyhidpp/pyhidpp/features/x2202.py:7-27 | the setter's layout is not the getter's: an echoed set request gives x back but reads y from the lift-off distance and the next param |
| X2202.GetDpiUnanswered | Vibration_test_scripts/pyhidpp/pyhidpp/features/x2202.py:9 | the getter returns None when no accepted reply comes |
| X8081.IndividualZonesParams | Vibration_test_scripts/pyhidpp/pyhidpp/features/x8081.py:26-33 | the params exist exactly when every zone has a colour; otherwise the loop's `rgbValues[i]` raises IndexError |
| X8081.RangeZonesParams | Vibration_test_scripts/pyhidpp/pyhidpp/features/x8081.py:38-43 | the params exist exactly when every first zone has a last zone and a colour; otherwise IndexError |
| X8081.IndividualZonesLayout | Vibration_test_scripts/pyhidpp/pyhidpp/features/x8081.py:30-33 | with three-byte colours, zone i and its colour are params 4i to 4i+3 |
| X8081.RangeZonesLayout | Vibration_test_scripts/pyhidpp/pyhidpp/features/x8081.py:39-43 | with three-byte colours, range i is params 5i to 5i+4 |
| X8081.FrameEndParams | Vibration_test_scripts/pyhidpp/pyhidpp/features/x8081.py:48-51 | frameEnd succeeds exactly for 16-bit frame numbers, giving the persistence and both counts big-endian; otherwise struct.error |
| X8081.FrameEndDefaults | Vibration_test_scripts/pyhidpp/pyhidpp/features/x8081.py:48-51 | with every default the request is five zeros |
| X8081.ThreeZonesSent | Vibration_test_scripts/pyhidpp/pyhidpp/features/x8081.py:26-35 | three zones in red, green and blue go out as one twelve-param function-1 request |
| X1004.StatusOf | Vibration_test_scripts/pyhidpp/pyhidpp/features/x1004.py:7-12 | ChargingStatus(n) exists exactly for 0 to 4 and keeps its code; otherwise ValueError |
| X1004.LevelOf | Vibration_test_scripts/pyhidpp/pyhidpp/features/x1004.py:15-19 | BatteryLevel(n) exists exactly for 1, 2, 4 and 8 and keeps its code; otherwise ValueError |
| X1004.CodesRoundTrip | Vibration_test_scripts/pyhidpp/pyhidpp/features/x1004.py:7-19 | every status and level is recovered from its code |
| X1004.ParseStatus | Vibration_test_scripts/pyhidpp/pyhidpp/features/x1004.py:37-48 | the parse succeeds exactly when the version's params are present and the level and status codes are valid; the optional fields are present exactly from versions 4 and 5 |
| X1004.StatusRoundTrip | Vibration_test_scripts/pyhidpp/pyhidpp/features/x1004.py:35-48 | every state a device reports is read back, with exactly the fields its version has |
| X1004.BadLevelRaises | Vibration_test_scripts/pyhidpp/pyhidpp/features/x1004.py:45 | a level outside 1, 2, 4, 8 raises ValueError even when the status is valid |
| X1004.GetStatusUnanswered | Vibration_test_scripts/pyhidpp/pyhidpp/features/x1004.py:36-37 | get_status returns None when no accepted reply comes |
| X1001.VoltageAsWritten | Vibration_test_scripts/pyhidpp/pyhidpp/features/x1001.py:22 | `p0 << 0xFF + p1` shifts by 255 + p1, so it raises ValueError exactly for a shift count below zero |
| X1001.Voltage | Vibration_test_scripts/pyhidpp/pyhidpp/features/x1001.py:22 | the corrected voltage is the big-endian join of p0 and p1 |
| X1001.VoltageRoundTrip | Vibration_test_scripts/pyhidpp/pyhidpp/features/x1001.py:22 | a voltage below 2^16 sent high byte first comes back |
| X1001.VoltageAsWrittenIsNotJoin | Vibration_test_scripts/pyhidpp/pyhidpp/features/x1001.py:22 | as written two reply bytes give their join only when both are zero; any non-zero high byte gives at least 2^17 |
| X1001.FourThousandMillivolts | Vibration_test_scripts/pyhidpp/pyhidpp/features/x1001.py:22 | 4000 mV arrives as 0x0F, 0xA0 and reads as 15 * 2^415 as written |
| X1001.Flags | Vibration_test_scripts/pyhidpp/pyhidpp/features/x1001.py:23-27 | external power is bit 7, critical bit 5, slow charge bit 4, fast charge bit 3 and the charge status the low three bits |
| X1001.FlagsRoundTrip | Vibration_test_scripts/pyhidpp/pyhidpp/features/x1001.py:23-27 | each flag is read back from its bit |
| X1001.ParseInfoAsWritten | Vibration_test_scripts/pyhidpp/pyhidpp/features/x1001.py:19-28 | as written: IndexError below two params, and a result only with three params and the shifted voltage |
| X1001.ParseInfo | Vibration_test_scripts/pyhidpp/pyhidpp/features/x1001.py:19-28 | the corrected parse succeeds exactly with three params and gives the joined voltage and the flags of p2 |
| X1001.InfoRoundTrip | Vibration_test_scripts/pyhidpp/pyhidpp/features/x1001.py:18-28 | a reply carrying a voltage and a flags byte is read back in full |
| X1001.GetBatteryInfo | Vibration_test_scripts/pyhidpp/pyhidpp/features/x1001.py:18-28 | not connected gives None; on a known feature exactly one request, function 0 without params, and the connection kept |
| X1001.GetBatteryInfoCorrected | Vibration_test_scripts/pyhidpp/pyhidpp/features/x1001.py:18-28 | with the voltage joined, the same single request |
| X1001.GetBatteryInfoAnswered | Vibration_test_scripts/pyhidpp/pyhidpp/features/x1001.py:18-22 | as written a reply whose high voltage byte is not zero reads as at least 2^17 mV, never the join of the two bytes |
| X1001.GetBatteryInfoAnsweredCorrected | Vibration_test_scripts/pyhidpp/pyhidpp/features/x1001.py:18-28 | with the join, a reply carrying a voltage and a flags byte reads back in full |
| X1001.GetBatteryInfoUnanswered | Vibration_test_scripts/pyhidpp/pyhidpp/features/x1001.py:19-20 | get_battery_info returns None when no accepted reply comes |
| X18E9.ParseCurrents | Vibration_test_scripts/pyhidpp/pyhidpp/features/x18e9.py:27-30 | three int16s exist exactly when six byte-valued params are present, each the signed value of its pair; otherwise ValueError or struct.error |
| X18E9.CurrentsRoundTrip | Vibration_test_scripts/pyhidpp/pyhidpp/features/x18e9.py:27-30 | currents sent as three big-endian int16s are read back |
| X18E9.ParseCalibration | Vibration_test_scripts/pyhidpp/pyhidpp/features/x18e9.py:37 | the calibration exists exactly when p0..1 are bytes and is their signed value |
| X18E9.SetCalibrationRequest | Vibration_test_scripts/pyhidpp/pyhidpp/features/x18e9.py:40-41 | the request exists exactly for an int16 value, as the index followed by its two bytes; otherwise struct.error |
| X18E9.CalibrationRoundTrip | Vibration_test_scripts/pyhidpp/pyhidpp/features/x18e9.py:32-41 | a value set is what get_calibration_value reads from a reply echoing the value's bytes |
| X18E9.SetStateRequest | Vibration_test_scripts/pyhidpp/pyhidpp/features/x18e9.py:16 | `int(active)` is 1 for true and 0 for false |
| X18E9.ReadCurrentsAnswered | Vibration_test_scripts/pyhidpp/pyhidpp/features/x18e9.py:22-30 | on a known feature read_currents reports the three replied currents |
| X18E9.SetCalibrationOutOfRange | Vibration_test_scripts/pyhidpp/pyhidpp/features/x18e9.py:39-41 | an out-of-range calibration value raises struct.error before anything is sent |
| X92D1.StartMovingParams | Vibration_test_scripts/pyhidpp/pyhidpp/features/x92d1.py:18-25 | building the command fails only with struct.error |
| X92D1.StartMovingOk | Vibration_test_scripts/pyhidpp/pyhidpp/features/x92d1.py:18-25 | the command is built exactly when current, speed, angle and hold time all fit 16 bits |
| X92D1.StartMovingLayout | Vibration_test_scripts/pyhidpp/pyhidpp/features/x92d1.py:19-25 | a built command holds the four values high byte first, the mode, the flags and six zeros |
| X92D1.StartMovingReadBack | Vibration_test_scripts/pyhidpp/pyhidpp/features/x92d1.py:19-25 | each value is read back from its pair, and the mode and flags codes sit at 8 and 9 |
| X92D1.StartMovingDefaults | Vibration_test_scripts/pyhidpp/pyhidpp/features/x92d1.py:18 | with the default hold time, mode and flags everything after the angle is zero |
| DfuFile.Reset | Vibration_test_scripts/pyhidpp/pyhidpp/core/dfu_data.py:12-28 | after a reset there is no file, nothing is ready or ongoing, the strings are empty and every number is 0 |
| DfuFile.ExtractLine | Vibration_test_scripts/pyhidpp/pyhidpp/core/dfu_data.py:56-59 | line n is the file's bytes from 16n on, sixteen of them while the file lasts and fewer at its end |
| DfuFile.TotLine | Vibration_test_scripts/pyhidpp/pyhidpp/core/dfu_data.py:48 | the line count is the number of whole sixteen-byte lines in the file |
| DfuFile.SentLinesAreWhole | Vibration_test_scripts/pyhidpp/pyhidpp/core/dfu_data.py:48-59 | every line below the line count is a whole sixteen bytes |
| DfuFile.LinesReassemble | Vibration_test_scripts/pyhidpp/pyhidpp/core/dfu_data.py:48-59 | the lines the update sends, put back together, are the file without its trailing partial line: nothing repeated, reordered or skipped |
| DfuFile.MagicFrom | Vibration_test_scripts/pyhidpp/pyhidpp/core/dfu_data.py:66-72 | the magic string takes the header's characters in order up to a zero byte or ten characters, never a zero byte; a header too short raises IndexError |
| DfuFile.MagicStopsAtZero | Vibration_test_scripts/pyhidpp/pyhidpp/core/dfu_data.py:67-72 | on a whole header line the magic string stops exactly at the first zero byte or after ten characters |
| DfuFile.ExtractInfo | Vibration_test_scripts/pyhidpp/pyhidpp/core/dfu_data.py:61-77 | the header decodes exactly when the file has fourteen bytes and the magic loop finds its bytes; then the entity, encryption, flag and security level are bytes 0, 1, 12 and 13 and the file is ready; an IndexError leaves it not ready |
| DfuFile.WholeHeaderDecodes | Vibration_test_scripts/pyhidpp/pyhidpp/core/dfu_data.py:61-77 | a file of at least one whole line always yields a header with a magic string of at most ten characters |
| DfuFile.SetDfuFile | Vibration_test_scripts/pyhidpp/pyhidpp/core/dfu_data.py:30-54 | a file that cannot be opened gives false and the reset state; an opened one is kept with its name, line count and sequence number 0, and the result is true exactly when its header decoded |
| DfuFile.IncSeqNb | Vibration_test_scripts/pyhidpp/pyhidpp/core/dfu_data.py:87-90 | only the sequence number changes; from 0..3 it moves one step round 0, 1, 2, 3, 0 |
| DfuFile.IncSeqNbCycles | Vibration_test_scripts/pyhidpp/pyhidpp/core/dfu_data.py:87-90 | after n increments the sequence number is n steps further round the cycle of four |
| DfuController.ResponseStatus | Vibration_test_scripts/pyhidpp/pyhidpp/core/dfu_controller.py:29-36 | a missing response reads as the wait status 3; otherwise the status is p4, and a reply with fewer than five params raises IndexError |
| DfuController.Packet | Vibration_test_scripts/pyhidpp/pyhidpp/core/dfu_controller.py:16-27 | line 0 goes out with the start function and every other line with the current sequence number; the params are that line of the file; without a file the slice raises TypeError |
| DfuController.RestartParams | Vibration_test_scripts/pyhidpp/pyhidpp/core/dfu_controller.py:127-128 | the restart request carries the entity index followed by fifteen zeros |
| DfuController.ProcessFrom | Vibration_test_scripts/pyhidpp/pyhidpp/core/dfu_controller.py:71-130 | every run from a line satisfies the run invariant: packets are lines of the file with their functions; nothing is sent past the stopping line; a completed run is no longer ongoing and had no restart asked for; a run asking for restart that gets past the last line sends the restart request last and fails there with AttributeError, still ongoing |
| DfuController.Await | Vibration_test_scripts/pyhidpp/pyhidpp/core/dfu_controller.py:79-114 | an accepting status 1, 2, 5 or 6 moves on to the next line, the wait status polls, any other status reports an error and stops |
| DfuController.Retry | Vibration_test_scripts/pyhidpp/pyhidpp/core/dfu_controller.py:95-109 | the wait status polls the input queue and counts the attempt, and once the attempts exceed the timeout the same line is sent again with the count restarted |
| DfuController.AcceptedLine | Vibration_test_scripts/pyhidpp/pyhidpp/core/dfu_controller.py:116-124 | an accepted line continues as the run from the next line with the sequence number advanced, with or without the progress report |
| DfuController.Process | Vibration_test_scripts/pyhidpp/pyhidpp/core/dfu_controller.py:67-130 | the update ends Completed exactly when it is no longer ongoing, which needs `restart` off; with every line accepted the sequence number has advanced once per line, and with `restart` the restart request is the last action and the run fails with AttributeError at the end of the file, still ongoing; every packet is a line of the file; nothing is sent past the stopping line |
| DfuController.StartedRunSends | Vibration_test_scripts/pyhidpp/pyhidpp/core/dfu_controller.py:71-108 | in a started run line 0 is sent with the start function and line n with the sequence number n steps further on |
| DfuController.StartedRunCallbacks | Vibration_test_scripts/pyhidpp/pyhidpp/core/dfu_controller.py:126-130 | a restart is sent exactly when the run fails in the restart, which happens only when restart was asked for, and then the restart request is the last action |
| DfuController.AllPackets | Vibration_test_scripts/pyhidpp/pyhidpp/core/dfu_controller.py:71-73 | the packets of a whole update, one per line in order |
| DfuController.PacketsFromCons | Vibration_test_scripts/pyhidpp/pyhidpp/core/dfu_controller.py:71-124 | the packets from a line are its own, then the next line's with the sequence number one step further |
| DfuController.ProcessCorrected | Vibration_test_scripts/pyhidpp/pyhidpp/core/dfu_controller.py:126-130 | with a restart that reconnects: the same actions as written; a run that does not fail in the restart is unchanged; the update ends Completed exactly when it is no longer ongoing; a restart is sent exactly when the update completed with `restart` asked for, and it is then the last action |
| DfuController.PromptDeviceCompletesCorrected | Vibration_test_scripts/pyhidpp/pyhidpp/core/dfu_controller.py:126-130 | with a restart that reconnects, a device that accepts every packet at once sees the update complete, restart or not, with the same actions |
| DfuController.PromptDeviceGetsEveryLine | Vibration_test_scripts/pyhidpp/pyhidpp/core/dfu_controller.py:67-130 | a device that accepts every packet at once gets every line exactly once, in order, then the restart request if asked for, and nothing else; the update completes without `restart`, and with it fails with AttributeError and stays ongoing |
| DfuController.AcceptedAtOnce | Vibration_test_scripts/pyhidpp/pyhidpp/core/dfu_controller.py:73-124 | a line accepted by the first answer contributes its packet and then the run from the next line |
| DfuController.SilentDeviceGetsPacketAgain | Vibration_test_scripts/pyhidpp/pyhidpp/core/dfu_controller.py:95-109 | a device that never answers gets the packet, one poll per millisecond of the timeout, and then the same packet again |
| DfuController.RetryPollsThenResends | Vibration_test_scripts/pyhidpp/pyhidpp/core/dfu_controller.py:95-109 | from any attempt count, a silent queue leads to polls until the timeout and then the resend |
| DfuController.LoadDfuFile | Vibration_test_scripts/pyhidpp/pyhidpp/core/dfu_controller.py:132-138 | the file is set and its entity, magic string, flag, security level and line count returned; an unopenable file returns the reset values |
| DfuController.PerformDfuAsWritten | Vibration_test_scripts/pyhidpp/pyhidpp/core/dfu_controller.py:168-173 | as written nothing changes on the link, and a file that is not ready gives None |
| DfuController.ReadyFileNeverSent | Vibration_test_scripts/pyhidpp/pyhidpp/core/dfu_controller.py:171 | as written no file is ever sent: `connected_device.device` does not exist, so a ready file raises before the update starts |
| DfuController.PerformDfu | Vibration_test_scripts/pyhidpp/pyhidpp/core/dfu_controller.py:168-198 | the corrected update does nothing without a ready file, runs at once on a device that knows feature 0x00D0, and otherwise runs only after the feature is found; the run is the update as written, so with `restart` it fails in the restart |
| Discovery.CommonName | Vibration_test_scripts/pyhidpp/pyhidpp/core/discovery.py:29-30 | the common name fails only with IndexError |
| Discovery.CommonNameNeedsTwoSeparators | Vibration_test_scripts/pyhidpp/pyhidpp/core/discovery.py:29-30 | the name is missing exactly when the path has fewer than two `#`, and a name never contains `#` |
| Discovery.CommonNameOfFields | Vibration_test_scripts/pyhidpp/pyhidpp/core/discovery.py:29-30 | the common name of `a#b#c`, alone or followed by more fields, is c without its last character |
| Discovery.GetCapabilities | Vibration_test_scripts/pyhidpp/pyhidpp/core/discovery.py:33-42 | as written nb counts bits 0 to 2 and has_long is bit 1, but has_short holds bit 2 and has_xl bit 0 |
| Discovery.GetCapabilitiesCorrected | Vibration_test_scripts/pyhidpp/pyhidpp/core/discovery.py:33-42 | corrected, has_short is bit 0, has_long bit 1 and has_xl bit 2, with the same count |
| Discovery.LowThreeBits | Vibration_test_scripts/pyhidpp/pyhidpp/core/discovery.py:34-36 | the masks `& 0b1`, `& 0b10` and `& 0b100` test exactly bits 0, 1 and 2 |
| Discovery.Filter | Vibration_test_scripts/pyhidpp/pyhidpp/core/discovery.py:48-52 | a filtering list comprehension keeps exactly the elements satisfying the condition, in order |
| Discovery.Pids | Vibration_test_scripts/pyhidpp/pyhidpp/core/discovery.py:54-62 | the product ids in first-appearance order, each once, exactly those of the records |
| Discovery.FirstMatch | Vibration_test_scripts/pyhidpp/pyhidpp/core/discovery.py:80-88 | the next(...) search gives a candidate with the path's common name, or None only when no candidate has it; a malformed path raises IndexError |
| Discovery.PairLongs | Vibration_test_scripts/pyhidpp/pyhidpp/core/discovery.py:79-90 | each long endpoint is paired with a short one of the same common name or dropped; there are no extra-long endpoints |
| Discovery.Legacy | Vibration_test_scripts/pyhidpp/pyhidpp/core/discovery.py:72-90 | legacy interfaces pair a short endpoint of usage 1 with a long endpoint of usage 2 from the collection |
| Discovery.MatchLongs | Vibration_test_scripts/pyhidpp/pyhidpp/core/discovery.py:108-127 | every long endpoint gets exactly one interface, with whatever short and extra-long endpoints match it |
| Discovery.Modern | Vibration_test_scripts/pyhidpp/pyhidpp/core/discovery.py:92-127 | every modern interface has a long endpoint of report kind 2, and a short or extra-long endpoint only of kind 1 or 4, all from the collection |
| Discovery.ProductInterfaces | Vibration_test_scripts/pyhidpp/pyhidpp/core/discovery.py:63-127 | one product's interfaces are built from its own records, the legacy ones before the modern ones |
| Discovery.InterfacesOf | Vibration_test_scripts/pyhidpp/pyhidpp/core/discovery.py:62-127 | every interface of the listed products is built from their kept records |
| Discovery.Interfaces | Vibration_test_scripts/pyhidpp/pyhidpp/core/discovery.py:45-129 | every interface's endpoints are records of the vendor with a usage, a page and a path; only IndexError escapes |
| Discovery.GetInterfacesList | Vibration_test_scripts/pyhidpp/pyhidpp/core/discovery.py:45-129 | as written, with the swapped capability flags, every interface is built from kept records of the vendor |
| Discovery.GetInterfacesListCorrected | Vibration_test_scripts/pyhidpp/pyhidpp/core/discovery.py:45-129 | with the capability flags in place the same holds |
| Discovery.InterfacesOrdered | Vibration_test_scripts/pyhidpp/pyhidpp/core/discovery.py:54-62 | the list is grouped by product in the order the products appear, legacy interfaces before modern ones within a product |
| Discovery.ListOrdered | Vibration_test_scripts/pyhidpp/pyhidpp/core/discovery.py:45-129 | the whole list is ordered by first appearance of the product, then by page |
| Discovery.CorrectedFollowsCapabilities | Vibration_test_scripts/pyhidpp/pyhidpp/core/discovery.py:97-106 | for a collection holding one record per announced report kind, the corrected decoding gives one interface with a short endpoint exactly when bit 0 announces short reports |
| Discovery.AsWrittenSwapsShortAndExtraLong | Vibration_test_scripts/pyhidpp/pyhidpp/core/discovery.py:97-106 | as written, the same collection takes its short endpoint from bit 2 and its extra-long endpoint from bit 0 |
| Discovery.ShortLongDeviceBreaksDiscovery | Vibration_test_scripts/pyhidpp/pyhidpp/core/discovery.py:97-106 | as written, a device with short and long reports only is announced as extra-long, and the lookup of the missing extra-long endpoint raises IndexError |
| Discovery.ShortLongDeviceCorrected | Vibration_test_scripts/pyhidpp/pyhidpp/core/discovery.py:97-106 | corrected, the same device yields its interface with short and long endpoints and no extra-long one |
| Discovery.OneFailureSinksList | Vibration_test_scripts/pyhidpp/pyhidpp/core/discovery.py:62-129 | one product whose interfaces raise leaves the whole list unbuilt |
| Discovery.LaterFailureSinksList | Vibration_test_scripts/pyhidpp/pyhidpp/core/discovery.py:62-129 | a failure at a later product also leaves the whole list unbuilt |
| Registers.StripLeft | Vibration_test_scripts/pyhidpp/pyhidpp/sensor/sensor.py:68 | `int()`'s left strip removes exactly the leading ASCII whitespace |
| Registers.StripRight | Vibration_test_scripts/pyhidpp/pyhidpp/sensor/sensor.py:68 | the right strip removes exactly the trailing ASCII whitespace |
| Registers.IsRegisterAddress | Vibration_test_scripts/pyhidpp/pyhidpp/sensor/sensor.py:65-71 | a string is an address exactly when it parses as hex, with ASCII whitespace and digits, to a value below 0xFF; a non-string raises TypeError, which `except ValueError` does not catch |
| Registers.ParseHexPlain | Vibration_test_scripts/pyhidpp/pyhidpp/sensor/sensor.py:68 | a text with no surrounding space, sign or `0x` prefix is read as its hex digits |
| Registers.ParseHexLower | Vibration_test_scripts/pyhidpp/pyhidpp/sensor/sensor.py:68 | `int(hex(n), 16)` is n, with or without the `0x` prefix |
| Registers.HexTextIsAddress | Vibration_test_scripts/pyhidpp/pyhidpp/sensor/sensor.py:65-71 | the hex text of n names a register address exactly when n is below 0xFF |
| Registers.NamesAreNotAddresses | Vibration_test_scripts/pyhidpp/pyhidpp/sensor/sensor.py:65-71 | a name with any character outside ASCII hex digits, ASCII whitespace, signs, `x` and `_` is not an address, so "Control1" is looked up by name |
| Registers.ByName | Vibration_test_scripts/pyhidpp/pyhidpp/sensor/em7788.py:82-84 | the regs dict maps a name to a register of the list with that name, and has no entry exactly when no register has it |
| Registers.GetRegister | Vibration_test_scripts/pyhidpp/pyhidpp/sensor/sensor.py:73-85 | as written: a non-string raises TypeError; a hex address raises AttributeError on `self.reg`; any other string is looked up by name |
| Registers.AtAddress | Vibration_test_scripts/pyhidpp/pyhidpp/sensor/sensor.py:76-78 | the first register of the list at a one-byte address, and none exactly when no register has it |
| Registers.GetRegisterCorrected | Vibration_test_scripts/pyhidpp/pyhidpp/sensor/sensor.py:73-85 | corrected: a hex address finds the register at that address or an unknown one-byte register there; a Register object is used as it is; a name is looked up by name; an int still raises TypeError |
| Registers.LookupsAgreeOnNames | Vibration_test_scripts/pyhidpp/pyhidpp/sensor/sensor.py:73-85 | both lookups agree on everything except hex addresses and Register objects |
| Registers.AddressLookupRaises | Vibration_test_scripts/pyhidpp/pyhidpp/sensor/sensor.py:75-76 | as written any hex address below 0xFF raises whatever registers the chip has, while the corrected lookup answers |
| Registers.BeBytes | Vibration_test_scripts/pyhidpp/pyhidpp/sensor/sensor.py:117-119 | the register value's low size bytes, most significant first, each a byte |
| Registers.BeBytesAt | Vibration_test_scripts/pyhidpp/pyhidpp/sensor/sensor.py:117-119 | byte i is the value shifted right by its weight and masked |
| Registers.BeRoundTrip | Vibration_test_scripts/pyhidpp/pyhidpp/sensor/sensor.py:95-98 | reading back the bytes of a write gives the value modulo 256^size |
| Registers.BeBytesOfValue | Vibration_test_scripts/pyhidpp/pyhidpp/sensor/sensor.py:95-98 | every byte list is the encoding of its own value, so reading and writing are inverse on register contents |
| Sensor.ReplyValue | Vibration_test_scripts/pyhidpp/pyhidpp/sensor/sensor.py:94-98 | the value read is the answer's bytes from the offset, most significant first; a missing answer raises TypeError at the first subscript and a short one IndexError |
| Sensor.Masked | Vibration_test_scripts/pyhidpp/pyhidpp/sensor/sensor.py:91 | every address byte is or-ed with the mask, in order |
| Sensor.ReadCommand | Vibration_test_scripts/pyhidpp/pyhidpp/sensor/sensor.py:90-93 | a read sends each address byte with the read bit, then the idle byte |
| Sensor.ReadFound | Vibration_test_scripts/pyhidpp/pyhidpp/sensor/sensor.py:87-100 | once get_register has answered: a lookup that raised raises, nothing found gives None without a transfer, otherwise one transfer of the read command, and the value exists exactly when the answer is long enough |
| Sensor.ReadRegister | Vibration_test_scripts/pyhidpp/pyhidpp/sensor/sensor.py:73-100 | as written a hex address raises AttributeError and anything but a string TypeError, both without a transfer; a name without a register gives None; a register's name is read with one transfer |
| Sensor.ReadRegisterCorrected | Vibration_test_scripts/pyhidpp/pyhidpp/sensor/sensor.py:73-100 | with the corrected lookup a Register object is read as itself and a hex address as the first register at that address or a one-byte unknown register; an int raises TypeError |
| Sensor.ReadRegisterAgrees | Vibration_test_scripts/pyhidpp/pyhidpp/sensor/sensor.py:73-85 | away from hex addresses and Register objects both lookups read the same |
| Sensor.ReadRegisterRoundTrip | Vibration_test_scripts/pyhidpp/pyhidpp/sensor/sensor.py:87-98 | a register whose answer carries its value after the first byte reads as that value modulo 256^size, after exactly one transfer |
| Sensor.Interleave | Vibration_test_scripts/pyhidpp/pyhidpp/sensor/sensor.py:120-127 | the nested comprehension alternates address bytes and value bytes |
| Sensor.WriteCommand | Vibration_test_scripts/pyhidpp/pyhidpp/sensor/sensor.py:117-127 | a write sends two bytes per register byte and the idle byte last |
| Sensor.WriteCommandCarriesValue | Vibration_test_scripts/pyhidpp/pyhidpp/sensor/sensor.py:117-127 | the write command addresses the register byte by byte, and the value bytes it carries read back as the value modulo 256^size |
| Sensor.WriteFound | Vibration_test_scripts/pyhidpp/pyhidpp/sensor/sensor.py:114-136 | once get_register has answered: a register gets one transfer of the write command and returns the bytes read during it; nothing found falls through to `ref \| write_mask`, which raises TypeError for a string before anything is sent |
| Sensor.WriteRegister | Vibration_test_scripts/pyhidpp/pyhidpp/sensor/sensor.py:73-136 | as written a hex address raises AttributeError, anything but a string TypeError, and a name without a register TypeError, all without a transfer; a register's name is written with one transfer |
| Sensor.WriteRegisterCorrected | Vibration_test_scripts/pyhidpp/pyhidpp/sensor/sensor.py:73-136 | with the corrected lookup a Register object and a hex address are written with one transfer, to the register looked up; an int raises TypeError |
| Sensor.ReadAddresses | Vibration_test_scripts/pyhidpp/pyhidpp/sensor/sensor.py:164 | a batch's address bytes, one per register byte |
| Sensor.BatchCommand | Vibration_test_scripts/pyhidpp/pyhidpp/sensor/sensor.py:151 | a batch transfer is its address bytes and the idle byte |
| Sensor.DecodeBatch | Vibration_test_scripts/pyhidpp/pyhidpp/sensor/sensor.py:152-160 | a batch answer decodes to one value per register, or raises IndexError when short |
| Sensor.ReducedValues | Vibration_test_scripts/pyhidpp/pyhidpp/sensor/sensor.py:154-160 | each decoded value is the value sent modulo 256 to its register's width |
| Sensor.DecodeBatchRoundTrip | Vibration_test_scripts/pyhidpp/pyhidpp/sensor/sensor.py:152-160 | a batch answered with its registers' values gives them back in order, each modulo its width |
| Sensor.DecodeBatchAt | Vibration_test_scripts/pyhidpp/pyhidpp/sensor/sensor.py:152-160 | decoding from the offset where the batch's answer sits gives back the reduced values |
| Sensor.Flush | Vibration_test_scripts/pyhidpp/pyhidpp/sensor/sensor.py:151-160 | a batch is sent once; no answer or an empty one adds no values, otherwise the answer is decoded from byte 1 |
| Sensor.Lookups | Vibration_test_scripts/pyhidpp/pyhidpp/sensor/sensor.py:73-85 | as written each reference resolves to AttributeError for a hex address, TypeError for anything but a string, and otherwise the register of that name if any |
| Sensor.LookupsCorrected | Vibration_test_scripts/pyhidpp/pyhidpp/sensor/sensor.py:73-85 | with the corrected lookup only an int raises; a Register object is itself, a hex address finds a register at that address, and a name its register if any |
| Sensor.ReadLoop | Vibration_test_scripts/pyhidpp/pyhidpp/sensor/sensor.py:144-178 | the values grow from those already read, and a successful loop has made at least one transfer |
| Sensor.ReadLoopFailures | Vibration_test_scripts/pyhidpp/pyhidpp/sensor/sensor.py:144-178 | whatever the lookups gave, the loop returns None only at a lookup that found nothing, and raises only what a lookup raised or IndexError from a short answer |
| Sensor.ReadRegisters | Vibration_test_scripts/pyhidpp/pyhidpp/sensor/sensor.py:138-178 | as written at most one value per reference; None only for a name without a register; only TypeError, AttributeError or IndexError escape, AttributeError only when some reference is a hex address |
| Sensor.ReadRegistersCorrected | Vibration_test_scripts/pyhidpp/pyhidpp/sensor/sensor.py:138-178 | with the corrected lookup hex addresses and Register objects never fail the read: TypeError escapes only for an int reference, otherwise only IndexError |
| Sensor.ReadRegistersHexFirstRaises | Vibration_test_scripts/pyhidpp/pyhidpp/sensor/sensor.py:138-145 | as written a hex address first in the list raises AttributeError before any transfer |
| Sensor.ReadRegistersAgree | Vibration_test_scripts/pyhidpp/pyhidpp/sensor/sensor.py:73-85 | away from hex addresses and Register objects both lookups read the same registers |
| Sensor.BatchesFrom | Vibration_test_scripts/pyhidpp/pyhidpp/sensor/sensor.py:150-166 | a register that does not fit closes the current batch and opens the next, and the last batch closes at the end |
| Sensor.BatchesKeepOrder | Vibration_test_scripts/pyhidpp/pyhidpp/sensor/sensor.py:150-166 | the batches hold every register once, in order |
| Sensor.BatchesFit | Vibration_test_scripts/pyhidpp/pyhidpp/sensor/sensor.py:140-150 | every batch fits in 14 address bytes unless it is a single register that alone exceeds them |
| Sensor.BatchesAreGreedy | Vibration_test_scripts/pyhidpp/pyhidpp/sensor/sensor.py:150 | each batch after the first starts with a register that would not have fitted in the batch before it |
| Sensor.ReadLoopAtFlush | Vibration_test_scripts/pyhidpp/pyhidpp/sensor/sensor.py:150-166 | at a register that does not fit, the pending batch is sent first and the loop continues with a batch holding that register |
| Sensor.ReadLoopAtJoin | Vibration_test_scripts/pyhidpp/pyhidpp/sensor/sensor.py:164-166 | at a register that fits, it joins the pending batch without a transfer |
| Sensor.ReadRegistersSendsBatches | Vibration_test_scripts/pyhidpp/pyhidpp/sensor/sensor.py:144-178 | when every reference names a register and nothing raises, the loop makes exactly one transfer per batch |
| Sensor.ReadRegistersTransfersFit | Vibration_test_scripts/pyhidpp/pyhidpp/sensor/sensor.py:138-178 | when every register fits a transfer, every transfer is one of the batches, at most 15 bytes long, and all registers are asked for in order |
| SensorUpload.VersionCommand | Vibration_test_scripts/pyhidpp/pyhidpp/sensor/sensor.py:182-199 | the thirteen-byte version read carries the RAM address high byte at 5 and low byte at 7 |
| SensorUpload.ReplyWord | Vibration_test_scripts/pyhidpp/pyhidpp/sensor/sensor.py:223 | `sdi[9] * 256 + sdi[10]` exists exactly for an answer of eleven bytes; a missing answer raises TypeError and a short one IndexError |
| SensorUpload.ReadOptionalWord | Vibration_test_scripts/pyhidpp/pyhidpp/sensor/sensor.py:202-245 | a chip without the address gives None without a transfer; otherwise one transfer and its word |
| SensorUpload.ReadOptionalWords | Vibration_test_scripts/pyhidpp/pyhidpp/sensor/sensor.py:202-245 | the build and variant are present exactly when the chip has their addresses, each read by its own transfer |
| SensorUpload.ReadBitstreamVersion | Vibration_test_scripts/pyhidpp/pyhidpp/sensor/sensor.py:180-249 | with chip select enabled, one transfer for major and minor, one for each optional word, then chip select disabled; a missing or short answer raises and leaves chip select enabled |
| SensorUpload.ReadBitstreamVersionAnswered | Vibration_test_scripts/pyhidpp/pyhidpp/sensor/sensor.py:180-249 | a chip answering with its version's bytes is read back exactly |
| SensorUpload.Offset | Vibration_test_scripts/pyhidpp/pyhidpp/sensor/sensor.py:268-269 | the bytes that go in whole steps of six: all but the remainder modulo 6 |
| SensorUpload.SixCommand | Vibration_test_scripts/pyhidpp/pyhidpp/sensor/sensor.py:262-264 | six bytes go in one transfer, each after 0x2E or 0x2F alternately |
| SensorUpload.PairCommand | Vibration_test_scripts/pyhidpp/pyhidpp/sensor/sensor.py:271 | two bytes go after 0x2E and 0x2F |
| SensorUpload.Reported | Vibration_test_scripts/pyhidpp/pyhidpp/sensor/sensor.py:266-267 | the progress callback, when set, gets the percentage sent so far rounded down |
| SensorUpload.SixChunksData | Vibration_test_scripts/pyhidpp/pyhidpp/sensor/sensor.py:261-267 | the whole steps carry the bytes up to the remainder, in order |
| SensorUpload.PairsData | Vibration_test_scripts/pyhidpp/pyhidpp/sensor/sensor.py:268-274 | the corrected pairs carry the remainder up to a final odd byte |
| SensorUpload.Upload | Vibration_test_scripts/pyhidpp/pyhidpp/sensor/sensor.py:258-274 | the corrected upload sends every byte of the bitstream in order, except a final odd byte |
| SensorUpload.RemainderAsWrittenData | Vibration_test_scripts/pyhidpp/pyhidpp/sensor/sensor.py:268-274 | as written the stride-6 slices give the remainder's first two bytes, or nothing when it has fewer |
| SensorUpload.UploadAsWritten | Vibration_test_scripts/pyhidpp/pyhidpp/sensor/sensor.py:258-274 | as written the upload sends the whole steps and at most two bytes of the remainder, in order |
| SensorUpload.TenByteBitstreamLosesTail | Vibration_test_scripts/pyhidpp/pyhidpp/sensor/sensor.py:268-274 | a ten-byte bitstream loses its last two bytes as written; corrected, all ten are sent |
| SensorUpload.WriteValue | Vibration_test_scripts/pyhidpp/pyhidpp/sensor/sensor.py:114-119 | writing None raises TypeError as soon as the register has a byte to fill |
| SensorUpload.ResumeFirmware | Vibration_test_scripts/pyhidpp/pyhidpp/sensor/sensor.py:57-60 | Control1 is written back first exactly when a non-zero value was saved; then the firmware resumes |
| SensorUpload.UploadPhase | Vibration_test_scripts/pyhidpp/pyhidpp/sensor/sensor.py:252-278 | an unknown Control1 stops the sequence with TypeError after the firmware stop and chip select |
| SensorUpload.UploadPhaseRestoresControl1 | Vibration_test_scripts/pyhidpp/pyhidpp/sensor/sensor.py:252-278 | an upload that completes logs exactly the upload sequence, with Control1 written back with the value the device reported before it |
| SensorUpload.LoadBitstream | Vibration_test_scripts/pyhidpp/pyhidpp/sensor/sensor.py:251-280 | as written a completed load read back the version with the build and variant the chip has, after a completed upload of the as-written transfers; an unknown Control1 raises TypeError after the firmware stop and chip select |
| SensorUpload.LoadBitstreamCorrected | Vibration_test_scripts/pyhidpp/pyhidpp/sensor/sensor.py:251-280 | with the remainder sent pair by pair, the same holds of the corrected upload |
| SensorUpload.VersionAndResume | Vibration_test_scripts/pyhidpp/pyhidpp/sensor/sensor.py:279-280 | after the upload the version is read back with the chip's optional words, and the log only grows |
| SensorUpload.LoadBitstreamRestoresControl1 | Vibration_test_scripts/pyhidpp/pyhidpp/sensor/sensor.py:251-280 | a load that completes logs the full upload sequence with Control1 restored, then the version read and the firmware resume; as written its transfers carry the bitstream only up to the whole steps of six and at most two bytes more |
| SensorUpload.LoadBitstreamCorrectedRestoresControl1 | Vibration_test_scripts/pyhidpp/pyhidpp/sensor/sensor.py:251-280 | with the remainder sent pair by pair the same sequence carries every byte of the bitstream except a final odd one |
| SensorInterface.ValidatedIsNeverError | Vibration_test_scripts/pyhidpp/pyhidpp/sensor/interface.py:17-18 | a reply that got through validation is never an error frame |
| SensorInterface.EnableHidden | Vibration_test_scripts/pyhidpp/pyhidpp/sensor/interface.py:57-63 | at most three attempts; an answer that is not an error frame ends the loop, and no answer at all means every attempt was used |
| SensorInterface.DetectState | Vibration_test_scripts/pyhidpp/pyhidpp/sensor/interface.py:52-73 | the three flags are cleared; firmware-stopped and chip-select are set together and only from the selection of a connected device; otherwise the sensor index is kept |
| SensorInterface.DetectStateReadsSelection | Vibration_test_scripts/pyhidpp/pyhidpp/sensor/interface.py:52-73 | a device that accepts the hidden features and then reports its selection gets the sensor index and both flags from it |
| SensorInterface.DetectStateOffline | Vibration_test_scripts/pyhidpp/pyhidpp/sensor/interface.py:52-73 | a disconnected interface sends nothing while detecting and stays disconnected |
| SensorInterface.CsEnable | Vibration_test_scripts/pyhidpp/pyhidpp/sensor/interface.py:75-78 | with chip select not known to be enabled the sensor is selected with access 3 and chip select is recorded enabled; otherwise nothing happens |
| SensorInterface.CsDisableAccess | Vibration_test_scripts/pyhidpp/pyhidpp/sensor/interface.py:81-83 | chip select off selects access 1 exactly when the firmware is recorded stopped, 0 otherwise |
| SensorInterface.CsDisable | Vibration_test_scripts/pyhidpp/pyhidpp/sensor/interface.py:80-84 | the sensor is selected with that access and chip select recorded off |
| SensorInterface.FwStop | Vibration_test_scripts/pyhidpp/pyhidpp/sensor/interface.py:86-89 | access 1 is selected, the firmware recorded stopped and chip select off |
| SensorInterface.FwResume | Vibration_test_scripts/pyhidpp/pyhidpp/sensor/interface.py:91-94 | access 0 is selected, the firmware recorded running and chip select off |
| SensorInterface.CsRoundTripKeepsFirmware | Vibration_test_scripts/pyhidpp/pyhidpp/sensor/interface.py:75-84 | enabling then disabling chip select keeps the firmware flag, and the second selection carries exactly the firmware-stop bit |
| SensorInterface.CsDisableFollowsFirmware | Vibration_test_scripts/pyhidpp/pyhidpp/sensor/interface.py:80-94 | after fw_stop, chip select off keeps the firmware stopped; after fw_resume, running |
| SensorInterface.Truncated | Vibration_test_scripts/pyhidpp/pyhidpp/sensor/interface.py:97-98 | the bytes sent are the first fifteen |
| SensorInterface.Transmission | Vibration_test_scripts/pyhidpp/pyhidpp/sensor/interface.py:96-110 | the answer has at most as many bytes as were sent; a disconnected device gives None |
| SensorInterface.TransmissionAnswered | Vibration_test_scripts/pyhidpp/pyhidpp/sensor/interface.py:96-110 | on a known feature one SPI request carries the count and the first fifteen bytes, and an accepted reply gives its params 1..n |
| Detection.KindOfId | Vibration_test_scripts/pyhidpp/pyhidpp/sensor/detection.py:7 | a model found in the `sensor_id` table answers with exactly the id it was looked up by |
| Detection.KindOfIdInverts | Vibration_test_scripts/pyhidpp/pyhidpp/sensor/detection.py:7 | the table is a bijection onto the known ids: each of EM7795, EM7790, EM7788 and EM7792 is found under its own id, and an id finds nothing exactly when no model has it |
| Detection.Detect | Vibration_test_scripts/pyhidpp/pyhidpp/sensor/detection.py:10-16 | one probe is sent; a detected model is the one whose id came back in byte 1 of the answer; the only exception is IndexError, for an answer too short to have a byte 1 |
| Detection.DetectAnswered | Vibration_test_scripts/pyhidpp/pyhidpp/sensor/detection.py:10-16 | a chip answering with a model's id in byte 1 is detected as that model, after exactly one probe transfer |
| Detection.DetectNothing | Vibration_test_scripts/pyhidpp/pyhidpp/sensor/detection.py:13-16 | detection comes back empty exactly when there was no answer or byte 1 is no known model's id |
| Bitstream.VersionString | Vibration_test_scripts/pyhidpp/pyhidpp/sensor/bitstream.py:11-17 | the text always starts with major, a dot and minor in decimal |
| Bitstream.VersionIsDotted | Vibration_test_scripts/pyhidpp/pyhidpp/sensor/bitstream.py:11-17 | the text is major, minor, then the build and the variant that are present, joined by dots |
| Bitstream.VersionFields | Vibration_test_scripts/pyhidpp/pyhidpp/sensor/bitstream.py:11-17 | splitting the text on dots gives back those numbers in order: two fields plus one per present part |
| Bitstream.VersionStringDetermines | Vibration_test_scripts/pyhidpp/pyhidpp/sensor/bitstream.py:11-17 | equal texts mean equal major, minor and list of present parts |
| Bitstream.VariantPrintsLikeBuild | Vibration_test_scripts/pyhidpp/pyhidpp/sensor/bitstream.py:13-16 | a variant without a build prints exactly like that number given as a build: the text alone does not say which it was |
| Bitstream.SplitDotted | Vibration_test_scripts/pyhidpp/pyhidpp/sensor/bitstream.py:11-17 | splitting a dotted list of decimal numbers on dots gives back each number's text |
| Security.NewManager | Vibration_test_scripts/pyhidpp/pyhidpp/security/security_manager.py:16-37 | the user counts as authenticated exactly when the password file exists; the device is not yet known to be protected, the index is -1, and no session name, password or firmware name is set |
| Security.SetSessionName | Vibration_test_scripts/pyhidpp/pyhidpp/security/security_manager.py:200-202 | the session bytes are the code points of the name, one per character, and nothing else in the manager changes |
| Security.SessionNameBytesRoundTrip | Vibration_test_scripts/pyhidpp/pyhidpp/security/security_manager.py:200-202 | for names below the surrogate range the name can be read back from the bytes sent for it |
| Security.FetchManuf | Vibration_test_scripts/pyhidpp/pyhidpp/security/security_manager.py:39-51 | an unauthenticated user changes nothing; otherwise KeyError exactly when the firmware/session pair is not in the password file, and the stored password changes only to that entry, and only when it is not empty |
| Security.GetAuthFeatureIndex | Vibration_test_scripts/pyhidpp/pyhidpp/security/security_manager.py:53-76 | protection is whether 0x1E02 enumerates; without it only that one enumeration is made and the index is kept; with it the reported index is kept unless it is truthy and does not enumerate, in which case it becomes None; 0x1602 is enumerated exactly when it was reported |
| Security.Open1602 | Vibration_test_scripts/pyhidpp/pyhidpp/security/security_manager.py:101-121 | nothing is sent for an unauthenticated user; without a fetched password TypeError is raised right after an answered session start, before any password is sent; otherwise success exactly when both requests are answered, and the password sent is the fetched one |
| Security.Open | Vibration_test_scripts/pyhidpp/pyhidpp/security/security_manager.py:78-88 | an unprotected device succeeds with no request; a protected one raises TypeError exactly when 0x1602 is the authentication feature, the user is authenticated, the session start is answered and no password was fetched; otherwise it succeeds exactly when both session requests are answered |
| Security.OpenStartsSessionOnlyWhenAllowed | Vibration_test_scripts/pyhidpp/pyhidpp/security/security_manager.py:78-109 | a session is started exactly for a protected device, an authenticated user and the 0x1602 feature |
| Security.Close1602 | Vibration_test_scripts/pyhidpp/pyhidpp/security/security_manager.py:123-133 | without authentication the result is False and nothing is sent; otherwise one end-session request with the session bytes, whose reply is the result |
| Security.Close | Vibration_test_scripts/pyhidpp/pyhidpp/security/security_manager.py:90-99 | protection is always re-checked first by enumerating 0x1E02, and a device without it is closed successfully |
| Security.CloseMirrorsOpen | Vibration_test_scripts/pyhidpp/pyhidpp/security/security_manager.py:78-99 | when the stored protection agrees with the device, close succeeds outright, refuses, or ends the session in exactly the cases where open succeeds outright, refuses, or starts the session |
| Security.SessionBitfield | Vibration_test_scripts/pyhidpp/pyhidpp/security/security_manager.py:137-141 | the bit is non-zero exactly for the compliance and manufacturing session names |
| Security.EnableDeactivatableFeatures | Vibration_test_scripts/pyhidpp/pyhidpp/security/security_manager.py:135-156 | enable then `get_info` are always both sent; TypeError exactly when `get_info` has no reply; -1 when the enable request had no reply; success is only possible for a known session name |
| Security.EnableReportsSessionBit | Vibration_test_scripts/pyhidpp/pyhidpp/security/security_manager.py:142-154 | with both replies, success is exactly: compliance session and bit 1 of the state set, or manufacturing session and bit 0 set |
| Security.DisableDeactivatableFeatures | Vibration_test_scripts/pyhidpp/pyhidpp/security/security_manager.py:158-165 | exactly one disable request for the session's bit, and the manager is unchanged |
| Security.IsProtected | Vibration_test_scripts/pyhidpp/pyhidpp/security/security_manager.py:167-176 | one 0x1E02 enumeration, whose answer is the result |
| Security.FirstActiveFrom | Vibration_test_scripts/pyhidpp/pyhidpp/security/security_manager.py:192-198 | the outcome at the first entity that stops the loop (the active entity's name, AttributeError for a missing reply, or the decoding exception), or "nobody" when every counted entity is read and inactive |
| Security.FirstActiveFound | Vibration_test_scripts/pyhidpp/pyhidpp/security/security_manager.py:192-198 | when every entity before an active one is read and inactive, the loop answers that entity's name |
| Security.LookForActiveFwName | Vibration_test_scripts/pyhidpp/pyhidpp/security/security_manager.py:182-198 | "nobody" when the identity read gets no reply; the identity read's exception when it raises; otherwise the loop over the counted entities from entity 0 |
| Security.UnlockSteps | Vibration_test_scripts/pyhidpp/pyhidpp/security/security_manager.py:211-215 | for an unauthenticated user nothing is sent and nothing changes; the steps never change the session or firmware name; only KeyError or TypeError escape; features are enabled only after an opening that did not raise |
| Security.UnlockDevice | Vibration_test_scripts/pyhidpp/pyhidpp/security/security_manager.py:204-227 | hidden features are enabled and 0x1E02 enumerated first; manufacturing mode takes the manufacturing session and the name the firmware lookup answers, and a lookup exception ends the call after the lookup with the firmware name unchanged; compliance mode takes the name "Compliance" and the compliance session; protection is what 0x1E02 says; only KeyError, TypeError or the lookup's exception escape |
| Security.EmptyPasswordRaises | Vibration_test_scripts/pyhidpp/pyhidpp/security/security_manager.py:204-227 | an authenticated user whose password file holds an empty password for the session, on a manager that has fetched none before, gets TypeError from the unlock once the session start is answered, and no password or feature enabling is sent |
| Security.MissingFirmwareReplyStopsUnlock | Vibration_test_scripts/pyhidpp/pyhidpp/security/security_manager.py:191-197 | in the manufacturing mode a first entity whose firmware read gets no reply ends the unlock with AttributeError; the firmware name is not set and no session is started |
| Security.UnlockOnlyWhenProtectedAndAuthenticated | Vibration_test_scripts/pyhidpp/pyhidpp/security/security_manager.py:204-227 | on an unprotected device or for an unauthenticated user no password is fetched and no session start or feature enabling is sent; the result is success, or the firmware lookup's exception in the manufacturing mode |
| Security.UnlockOpensWithFetchedPassword | Vibration_test_scripts/pyhidpp/pyhidpp/security/security_manager.py:204-227 | on a protected 0x1602 device, an authenticated user whose file has the password for the mode's firmware and session gets that password sent to the device, when the manufacturing lookup answers a name |
| Security.StepsSendPassword | Vibration_test_scripts/pyhidpp/pyhidpp/security/security_manager.py:211-215 | with the password on file, the unlock steps send exactly that password |
| Security.StepsInUnlock | Vibration_test_scripts/pyhidpp/pyhidpp/security/security_manager.py:204-227 | on a protected device every request of the unlock steps is a request of `unlock_device` |
| Ini.StripLeft | Vibration_test_scripts/pyhidpp/pyhidpp/security/lambda.js:7-8 | the result is a suffix of the input, does not start with a space, and only spaces were removed |
| Ini.StripRight | Vibration_test_scripts/pyhidpp/pyhidpp/security/lambda.js:8 | the result is a prefix of the input, does not end with a space, and only spaces were removed |
| Ini.StripWithout | Vibration_test_scripts/pyhidpp/pyhidpp/security/lambda.js:7-8 | trimming adds no character: one absent from the input is absent from the result |
| Ini.StripNotEmpty | Vibration_test_scripts/pyhidpp/pyhidpp/security/lambda.js:8 | a text that is not all spaces keeps something when trimmed |
| Ini.IndexOf | Vibration_test_scripts/pyhidpp/pyhidpp/security/lambda.js:8 | the position found holds the character and none before it does; nothing is found exactly when the character is absent |
| Ini.SplitLines | Vibration_test_scripts/pyhidpp/pyhidpp/security/lambda.js:12 | at least one piece, and no piece holds a CR or LF |
| Ini.EmptyLinesOnlyAtEnds | Vibration_test_scripts/pyhidpp/pyhidpp/security/lambda.js:12 | runs of line breaks collapse, so only the first and last pieces can be empty |
| Ini.SplitJoinLines | Vibration_test_scripts/pyhidpp/pyhidpp/security/lambda.js:12 | break-free lines, empty only at the ends, are given back by splitting their text joined with line feeds |
| Ini.MatchParam | Vibration_test_scripts/pyhidpp/pyhidpp/security/lambda.js:8 | a matched line holds `=`, and its key is non-empty and holds no `=` |
| Ini.MatchSection | Vibration_test_scripts/pyhidpp/pyhidpp/security/lambda.js:7 | a matched section name holds no closing bracket |
| Ini.Classify | Vibration_test_scripts/pyhidpp/pyhidpp/security/lambda.js:14-30 | a parameter is what the parameter pattern matched; a header only when the parameter pattern did not match and the section pattern did; a line is empty exactly when it has no characters |
| Ini.ParamRoundTrip | Vibration_test_scripts/pyhidpp/pyhidpp/security/lambda.js:8-18 | `key=value` with trimmed key and value is read back as that key and value |
| Ini.HeaderRoundTrip | Vibration_test_scripts/pyhidpp/pyhidpp/security/lambda.js:7-25 | `[name]` is read back as a header for that name |
| Ini.BracketedAssignmentIsParam | Vibration_test_scripts/pyhidpp/pyhidpp/security/lambda.js:7-24 | a bracketed line that holds `=` is a parameter whose key keeps the opening bracket, although the section pattern would also have matched it |
| Ini.BracketsMatch | Vibration_test_scripts/pyhidpp/pyhidpp/security/lambda.js:7 | the section name is everything between the brackets less its leading spaces |
| Ini.Step | Vibration_test_scripts/pyhidpp/pyhidpp/security/lambda.js:14-30 | every line keeps the reader's invariant: the current section, when there is one, names an object in the result |
| Ini.HeaderStartsFreshSection | Vibration_test_scripts/pyhidpp/pyhidpp/security/lambda.js:24-27 | a header installs a new empty object under its name, replacing any earlier one, and makes it current |
| Ini.ParamStored | Vibration_test_scripts/pyhidpp/pyhidpp/security/lambda.js:17-23 | a parameter is stored in the current section, or at the top level outside one, and nothing else changes |
| Ini.Fold | Vibration_test_scripts/pyhidpp/pyhidpp/security/lambda.js:14-30 | over the lines in order no key is removed, every new key is the name of a header line or the key of a parameter line, and every header line's name ends up a key |
| Ini.ParseIniString | Vibration_test_scripts/pyhidpp/pyhidpp/security/lambda.js:5-33 | every key of the result comes from a header or parameter line of the text, and every header line's name is a key |
| Ini.SectionWithParam | Vibration_test_scripts/pyhidpp/pyhidpp/security/lambda.js:5-33 | a document of one header and one parameter is read as that section holding that parameter |

## Left out

- Threads, queues and timing: the listener and commander threads, `time.sleep`, and the hidapi handles. The listener and commander steps are pure functions, and the waits are an input sequence of outcomes.
- SpiAccess.SelectDevice: with a device id of None, the writer thread raises TypeError when it formats the request for its debug line, and it stops. The model gives that call's own outcome: nothing is written and no reply comes. It does not model that every later request on the connection then goes unwritten, because the connection has no flag for a stopped writer thread.
- IntCodec.ListToU16Le, ListToU16Be, ListToI16Le, ListToI16Be, ListToU32Le, ListToU32Be, ListToI32Le, ListToI32Be, ListToU8 and ListToI8: the decoders assume lists of bytes. `bytearray` raises ValueError for an entry outside 0..255, and that is not modelled, because every list decoded comes from a frame's params, which are bytes.
- `ConnectedDevice.wait_notif`, `send_raw` and `send_custom_request_no_rep`: they only hand a frame to the device or block on the queue, so they have no logic beyond the send step.
- `get_buffer_in_req` is not a separate operation. In the firmware update its results are the poll outcomes in the event sequence.
- `discovery.list_devices` and the `hid.enumerate` call: they are I/O. The model starts from the enumerated endpoint records.
- `bytes.decode` of product strings in discovery: names come in already decoded.
- DFU timeout: `attempt_cnt * 0.001 > timeout_s` is compared in whole milliseconds, so float rounding is not modelled.
- DfuController.ProcessFrom: when the event sequence runs out while a line still waits for its answer, the run ends `Stalled`. The source would keep polling and resending forever.
- DfuController: the progress and response callbacks are reduced to the list of progress values reported.
- The `ctl` register reference of the sensor upload is a parameter (the sensor passes "Control1"). The register table is the chip's table, given as input.
- Security: AES decryption of the password file is replaced by its result, a `Vault` of passwords keyed by firmware name and session name. The manager checks that the file exists; that check is the `fileExists` input.
- Security: the replies `look_for_active_fw_name` reads are inputs of the device record: the identity read's entity count and each entity's firmware answer. Which exceptions decoding those replies can raise is stated by `DeviceIdentity.ParseDeviceInfo` and `DeviceIdentity.FetchFirmware`, not here.
- Security: what feature 0x1602 does with the password it is sent (`passwd0`) is outside this model. Only the calls made and whether they were answered are modelled.
- Security: logging calls are left out because they have no effect on results.
- The lambda `handler` in security/lambda.js: it fetches the file from S3 and builds the HTTP response, which is I/O. Only `parseINIString` is modelled.
- Ini: JavaScript objects are modelled as maps, so key order and the key `__proto__` are not modelled. Strings are sequences of Unicode scalar values, so UTF-16 surrogate halves are not modelled.
- X8129.WriteValue: only integer and boolean types are modelled; `struct.pack` of a float is floating point.
- X8129.SetCurvePointRequest: the Float curve type is excluded for the same reason.
- X8129.SetArgumentRequest: the Float argument type is excluded for the same reason.
- X8129.SetCurvePoint: the Float curve type is excluded for the same reason.
- X8129.SetFunctionArgument: the Float argument type is excluded for the same reason.
- X8129: a float read from the device is kept as its four bytes.
- X8129.FindDriverIndex: a driver name is read in at most `limit` chunks. A name whose NUL has not arrived by then gives `Unfinished`, where the source would keep asking.
- X8129: `find_curve_index`, `find_function_index`, `find_function_argument` and the `find_driver_and_…` helpers repeat the name-search loop of `find_driver_index` over other attributes, so they are not modelled separately.
- X3617, X18E9, X9402 and `construct_and_process_request`: `print` and logger calls are left out because they do not change the result.
- Feature methods that pair one request builder with one reply parser, such as `X2202.GetDpi`, `X9205.ReadCalibration` or `X8129.GetCurveAttribute`, have no contract of their own. The rows of the builder and the parser, with `FeatureCall.Call`, state what they do. The same holds for methods that send one fixed request and return the validated reply untouched, such as `X9402.MonitorMode`, through `FeatureCall.Invoke`.
- Registers.StripLeft, Registers.StripRight, Registers.IsRegisterAddress and Registers.NamesAreNotAddresses: only ASCII whitespace and ASCII digits are modelled. Python's `int(text, 16)` also strips other Unicode whitespace, such as U+00A0 and U+3000, and reads other Unicode decimal digits, such as "٥٧" for 0x57. The model treats such texts as names; register names are ASCII.
- DeviceIdentity.ReadDeviceInfo: when a firmware lookup gets no reply, the source first appends `None` to the entity list and then raises AttributeError. The model raises without recording the entry.
- Packing.PutU16s: the stores are modelled only where the slice lies inside the list. Every caller in the source writes inside a sixteen-param list.
- Floating point anywhere else, the GUI, the test scripts, the chip drivers above the sensor layer, and the devices manager are not part of this model.

## Findings

| source | as written | input that shows it | evidently intended | confidence | as-written member | corrected member |
|---|---|---|---|---|---|---|
| Vibration_test_scripts/pyhidpp/pyhidpp/features/x0003.py:43 | the build number joins `hex(p)[2:]` of p6 and p7, which drops each byte's leading zero | build bytes 0x01, 0x05 read as 15 | each byte as two hex digits: 105 | high; not executed | DeviceIdentity.BuildLosesLeadingZero | DeviceIdentity.BuildFixedIsBcd |
| Vibration_test_scripts/pyhidpp/pyhidpp/core/connected_device.py:291-293 | `enumerate_all` adds every lookup result, and an unanswered lookup yields feature id 0 | a device that stops answering after the count: the root entry ends up at index `count` | failed lookups are skipped and the root entry is kept | medium; not executed | FeatureCall.SilentDeviceOverwritesRoot | FeatureCall.EnumerateFromKeepingRoot |
| Vibration_test_scripts/pyhidpp/pyhidpp/core/dfu_controller.py:171 | `perform_dfu` reads `self.connected_device.device`, an attribute `ConnectedDevice` never sets | any ready file: AttributeError before the update starts | `self.connected_device.device_info.is_enumerated(0x00D0)` | high; not executed | DfuController.ReadyFileNeverSent | DfuController.PerformDfu |
| Vibration_test_scripts/pyhidpp/pyhidpp/features/x00D0.py:61 | `X00D0.restart` calls `self.hidpp.reconnect_with_name()`, which `ConnectedDevice` does not define, so the update thread dies with AttributeError and `dfu_ongoing` is never cleared (dfu_controller.py:130) | any file whose every line is accepted, with restart=True | reconnect after the restart, then mark the update no longer ongoing | high; not executed | DfuController.PromptDeviceGetsEveryLine | DfuController.PromptDeviceCompletesCorrected |
| Vibration_test_scripts/pyhidpp/pyhidpp/core/discovery.py:33-42 | `get_capabilities` passes `hasExtraLong` where `has_short` goes and `hasShort` where `has_xl` goes | capability bits 0b011 (short and long): announced with long and extra-long reports and no short ones, then `extra_long[0]` raises IndexError | short from bit 0, extra-long from bit 2 | high; not executed | Discovery.ShortLongDeviceBreaksDiscovery | Discovery.ShortLongDeviceCorrected |
| Vibration_test_scripts/pyhidpp/pyhidpp/sensor/sensor.py:75-76 | the address path reads `self.reg`, but the table is `self.regs` | any hex text below 0xFF, such as "57": AttributeError | look the address up in `self.regs` | high; not executed | Registers.AddressLookupRaises | Registers.GetRegisterCorrected |
| Vibration_test_scripts/pyhidpp/pyhidpp/sensor/sensor.py:268-274 | the remainder uses stride-6 slices, so at most one pair is sent | a ten-byte bitstream: bytes 8 and 9 are never sent | the remainder sent two bytes at a time | high; not executed | SensorUpload.TenByteBitstreamLosesTail | SensorUpload.Upload |
| Vibration_test_scripts/pyhidpp/pyhidpp/features/x9402.py:29-34 | a reading above 2048 has 65535 subtracted | the reading -1 (0xFF, 0xFF) decodes as 0 | subtract 65536 (two's complement) | high; not executed | X9402.ReadingAsWrittenOffByOne | X9402.ReadingRoundTrip |
| Vibration_test_scripts/pyhidpp/pyhidpp/features/x9402.py:78-80 | `read_cal_data` adds `p[2] >> 8` to p1, and a byte shifted right by 8 is 0 | any threshold above 255 reads back as its low byte | `p[2] << 8` added to p1 | high; not executed | X9402.CalDataAsWrittenDropsHighBytes | X9402.CalDataRoundTrip |
| Vibration_test_scripts/pyhidpp/pyhidpp/features/x9402.py:51-65 | `write_cal_data` sends the nominal high byte for all three thresholds | nominal 1000 with thresholds 800 and 1200: the high threshold reads back as 944 | each threshold's own high byte | high; not executed | X9402.CalDataAsWrittenLosesThresholds | X9402.CalDataRoundTrip |
| Vibration_test_scripts/pyhidpp/pyhidpp/features/x9205.py:86-97 | `data[1, 3] = …` indexes a list with a tuple | any calibration whose values fit 16 bits: TypeError, nothing is sent | the slice `data[1:3]` | high; not executed | X9205.WriteCalibrationAlwaysRaises | X9205.CalibrationRoundTrip |
| Vibration_test_scripts/pyhidpp/pyhidpp/features/x9209.py:92-93 | the same tuple index in `write_calibration` | any calibration whose values fit 16 bits: TypeError | slices | high; not executed | X9209.WriteCalibrationAlwaysRaises | X9209.CalibrationRoundTrip |
| Vibration_test_scripts/pyhidpp/pyhidpp/features/x9201.py:96-99 | the same tuple index in `write_calibration` | any calibration whose values fit 16 bits: TypeError | slices | high; not executed | X9201.WriteCalibrationAlwaysRaises | X9201.CalibrationRoundTrip |
| Vibration_test_scripts/pyhidpp/pyhidpp/features/x9203.py:79-82 | the same tuple index in `write_calibration` | any calibration whose values fit 16 bits: TypeError | slices | high; not executed | X9203.WriteCalibrationAlwaysRaises | X9203.CalibrationRoundTrip |
| Vibration_test_scripts/pyhidpp/pyhidpp/features/x9201.py:23 | `data[0:1] = u16_to_list_be(reg_addr)` stores two bytes into a one-element slice | any 16-bit address: the request carries seventeen params, one more than a long report holds, so the built frame is longer than 20 bytes | the slice `data[0:2]`, which keeps sixteen params | high; not executed | X9201.ReadRegisterSeventeenParams | X9201.ReadRegisterShapes |
| Vibration_test_scripts/pyhidpp/pyhidpp/features/x1001.py:22 | `p[0] << 0xFF + p[1]` shifts by `255 + p1` (`+` binds tighter than `<<`) | 4000 mV (0x0F, 0xA0) reads as 15 * 2^415 | `(p[0] << 8) + p[1]` | high; not executed | X1001.FourThousandMillivolts | X1001.VoltageRoundTrip |
