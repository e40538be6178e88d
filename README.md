# BLE codec and state logic of the COR hub / MPPT app

This project models the core of a React Native app. The app talks over Bluetooth Low Energy to two devices:

- a COR battery hub, which reports four state-of-charge values, voltage and power, eight temperatures, and LED, LCD and AC/DC/system flags;
- an MPPT solar charge controller, which reports power, voltage, two temperatures and an on/off switch with a charging mode.

The model covers:

- **Codecs** (`bytes.dfy`, `cor_codec.dfy`, `mppt_codec.dfy`). Each decoder reads fixed offsets of a characteristic value:
  - 16-bit fields arrive low byte first;
  - the COR power field is a 16-bit two's-complement value;
  - the COR status byte holds three bit flags.

  Each write payload is the app's tick, most significant byte first, followed by bytes truncated modulo 256. The hub's and the controller's own layouts are given as encoders. Decoding is proved to invert them, and where the app's decoder is wrong, the exact inputs it gets wrong are named.
- **The two hooks** (`cor_ble.dfy`, `mppt_ble.dfy`). Each is a class whose fields are the hook's state variables. The discovered-peripheral `Map` is an insertion-ordered entry sequence (`peripheral_map.dfy`). Where one `Map` object is held by two parties (the COR hub screen's known peripherals and the hook's listed ones after the mount load), it is a `PeripheralTable` object, so an in-place `set` through one holder is seen by the other. Each method states:
  - exactly which fields a read sets;
  - which fields it leaves alone when the read fails or the value is too short (the app throws at the first out-of-range byte, so the fields set before that point keep their new values);
  - whether it raises the error flag;
  - which write it issues.
- **The two screens** (`cor_hub.dfy`, `mppt_screen.dfy`). They run the connection state machine of `screen_connection.dfy` with the transport outcome as a parameter. They also hold the switches, the mode write, the poll gating and the display conversions.
- **The MPPT card's background task** (`mppt_component.dfy`). It decodes two reads into fresh locals and saves one sample.
- **The power chart's sliding window and labels** (`graph_stats.dfy`).
- **The known-peripherals store** (`storage_devices.dfy`). The stored key is a value of the class, and JSON serialisation is taken as the identity.

`BleManager` reads are given as `ReadOutcome` values: a failure, or the bytes of the value. Writes are recorded in a `writes` log in the order they are issued. Storage and database success are boolean parameters.

## Model

| member | source | states |
|---|---|---|
| ByteCodec.Le16At | src/components/useBLE.tsx:217-225 | the reversed pair `(x[0]<<8)\|x[1]` is present exactly when both bytes exist, lies in [0, 65535], and has the byte at off as its low byte and the byte at off+1 as its high byte |
| ByteCodec.Be16At | src/components/useBLE.tsx:420 | the tick `(b0<<8)\|b1` is present exactly when both bytes exist, has b0 as high byte and b1 as low byte |
| ByteCodec.TickHeader | src/components/useBLE.tsx:451-455 | the two header bytes `(t>>8)&0xff, t&0xff` recombine to t mod 65536 |
| ByteCodec.ToUint8 | src/components/useBLE.tsx:479-484 | a `Uint8Array` element is the value modulo 256 (negative values wrap) and a byte is kept as is |
| ByteCodec.Signed16 | src/components/useBLE.tsx:295-303 | the power correction gives a value in [-32768, 32767], congruent to the raw pair modulo 65536, negative exactly when the high byte is at least 128 |
| ByteCodec.Signed16RoundTrip | src/components/useBLE.tsx:295-303 | every signed 16-bit power, sent in two's complement, decodes to itself |
| ByteCodec.Le16RoundTrip | src/components/useBLE.tsx:217-225 | a value sent low byte first at any offset is read back unchanged |
| ByteCodec.BitSevenIsTopBit | src/components/useBLE.tsx:300 | `hi & 0x80` is set exactly for the bytes from 128 upwards |
| CorCodec.DecodeSoc | src/components/useBLE.tsx:217-250 | the four state-of-charge values are defined exactly when the value has 10 bytes; each is in [0, 65535] with bytes 2k+2 / 2k+3 as low / high byte |
| CorCodec.PowerAt | src/components/useBLE.tsx:288-306 | power is defined exactly when 6 bytes exist, lies in [-32768, 32767], is congruent to b5*256+b4, negative iff b5 >= 128 |
| CorCodec.DecodeVoltagePower | src/components/useBLE.tsx:272-306 | voltage unsigned in [0, 65535] and power signed in [-32768, 32767], defined exactly when 6 bytes exist |
| CorCodec.DecodeTemperaturesAsWritten | src/components/useBLE.tsx:330-365 | the eight temperatures are defined when 9 bytes exist, and the third battery's maximum always equals its minimum (byte 8) |
| CorCodec.DecodeTemperatures | src/components/useBLE.tsx:330-365 | corrected layout: defined when 10 bytes exist, third battery's minimum is byte 8 and maximum byte 9 |
| CorCodec.DecodeStatus | src/components/useBLE.tsx:418-427 | the status is defined exactly when 3 bytes exist; tick in [0, 65535]; each flag in {0, 1}; `b2 mod 8 == system + 2*ac + 4*dc` |
| CorCodec.DecodeBrightness | src/components/useBLE.tsx:380-383 | the LED/LCD brightness is byte 2, defined exactly when it exists |
| CorCodec.ControlByte | src/components/useBLE.tsx:445-449 | the control byte is at most 7 and its bits 0, 1, 2 are the low bits of system, AC and DC |
| CorCodec.CurrentPayload | src/components/useBLE.tsx:451-457 | the AC/DC write payload has length 3 |
| CorCodec.BrightnessPayload | src/components/useBLE.tsx:479-485 | the LED/LCD write payload has length 3; its contents are stated by CorCodec.BrightnessRoundTrip |
| CorCodec.BrightnessRoundTrip | src/components/useBLE.tsx:479-485 | reading back an LED/LCD write gives the tick mod 65536 as header and the brightness mod 256 as byte 2 |
| CorCodec.BrightnessPayloadExample | src/components/useBLE.tsx:479-485 | brightness 75 is written as 04 D2 4B |
| CorCodec.SocRoundTrip | src/components/useBLE.tsx:217-250 | every state-of-charge reading a hub sends decodes to itself |
| CorCodec.VoltagePowerRoundTrip | src/components/useBLE.tsx:272-306 | every voltage and signed power a hub sends decodes to itself |
| CorCodec.TemperaturesRoundTrip | src/components/useBLE.tsx:330-365 | the corrected temperature decoder inverts the hub's layout |
| CorCodec.TemperaturesAsWrittenLosesMaxExt3 | src/components/useBLE.tsx:361-365 | as written, every reading whose third-battery minimum and maximum differ decodes wrong |
| CorCodec.TemperaturesAsWrittenExample | src/components/useBLE.tsx:361-365 | a third-battery maximum of 35 with minimum 20 is shown as 20 |
| CorCodec.CurrentRoundTrip | src/components/useBLE.tsx:420-456 | decoding a control write gives the tick mod 65536 and the low bit of each flag |
| CorCodec.CorHeaderIsConstant | src/components/useBLE.tsx:94 | with the tick fixed at 1234 every COR header is 04 D2 |
| CorCodec.CurrentPayloadExample | src/components/useBLE.tsx:445-457 | system on, AC on, DC off is written as 04 D2 03 |
| PeripheralMap.Keys | src/components/useBLE.tsx:58-60 | every entry's key is among the map's keys |
| PeripheralMap.Get | src/components/useBLE.tsx:146 | `map.get(k)` finds a value exactly when k is a key |
| PeripheralMap.Set | src/components/useBLE.tsx:112 | `map.set(k, v)`: keys become keys + {k}, k maps to v, every other key keeps its value, a new key grows the map by one, distinct keys and id-keying are preserved |
| PeripheralMap.SetNewKeyAppends | src/components/useBLE.tsx:112 | setting a new key appends one entry at the end |
| PeripheralMap.SetPresentKeyInPlace | src/components/useBLE.tsx:112 | setting a present key replaces its entry where it stands |
| PeripheralMap.SetTwice | src/components/useBLE.tsx:112 | a second `set` of the same key overrides the first and keeps the entry where the first put it |
| PeripheralMap.WithoutIds | src/screens/CorHub.tsx:218-223 | the filtered map holds exactly the entries whose peripheral id is not known, no more entries or keys than before, still a map |
| PeripheralMap.WithoutIdsCons | src/screens/CorHub.tsx:218-223 | the filter keeps or drops the first entry by its id and then filters the rest |
| PeripheralMap.WithoutIdsAppend | src/screens/CorHub.tsx:218-223 | the filter keeps the surviving entries in their relative order: filtering a concatenation is concatenating the filtered parts |
| PeripheralMap.WithoutIdsSingle | src/screens/CorHub.tsx:218-223 | a single entry survives exactly when its peripheral id is not known |
| PeripheralMap.GetOwnId | src/components/useBLE.tsx:146-152 | the entry found under an id holds the peripheral with that id |
| PeripheralMap.ContainsPrefix | src/components/useBLE.tsx:170-171 | a name that includes "COR2" includes "COR" |
| PeripheralMap.KeysAppend | src/storage/storageDevices.ts:9 | the keys of a concatenation are the union of the keys |
| PeripheralMap.DistinctAppend | src/storage/storageDevices.ts:9 | a concatenation has distinct keys iff both parts do and their keys are disjoint |
| StorageDevices.FromList | src/storage/storageDevices.ts:25-30 | the loaded map has distinct keys, each entry under its own id, and no more entries than records |
| StorageDevices.LoadLastDuplicateWins | src/storage/storageDevices.ts:27-29 | after loading, each id maps to the last stored record with that id |
| StorageDevices.LoadAfterSave | src/storage/storageDevices.ts:9-30 | saving a map and loading it back gives the same map, in the same order |
| StorageDevices.DistinctKeysPrefix | src/storage/storageDevices.ts:27-29 | dropping the last entry keeps keys distinct and the last key is not among the rest |
| StorageDevices.WithoutId | src/storage/storageDevices.ts:45-47 | the filtered array holds exactly the records with another id |
| StorageDevices.DeleteAbsentIsIdentity | src/storage/storageDevices.ts:45-47 | deleting an id that is not stored leaves the array unchanged |
| StorageDevices.DeleteKeepsOrder | src/storage/storageDevices.ts:45-47 | the filter distributes over concatenation, so relative order is kept |
| StorageDevices.LastWithId | src/storage/storageDevices.ts:27-29 | the reference for last-duplicate-wins: the last record with the id, or none when no record has it |
| StorageDevices.KnownPeripheralStore.Save | src/storage/storageDevices.ts:5-18 | the stored value becomes the map's values in insertion order; a failed write leaves it unchanged |
| StorageDevices.KnownPeripheralStore.Load | src/storage/storageDevices.ts:21-37 | an absent key or a failed read gives the empty map; otherwise the fold of the stored records, in which each id maps to its last record |
| StorageDevices.KnownPeripheralStore.Delete | src/storage/storageDevices.ts:40-57 | with a stored value and a working store, the value becomes the records with another id; otherwise nothing changes |
| UseBle.IsCorNameIffContainsCor | src/components/useBLE.tsx:169-172 | the discovery filter accepts exactly the names that include "COR" |
| UseBle.CorBleHook.constructor | src/components/useBLE.tsx:56-107 | every state variable starts at its `useState` value |
| UseBle.CorBleHook.AddOrUpdatePeripheral | src/components/useBLE.tsx:109-114 | the current Map object is set at id in place (other ids unchanged), the hook then holds a fresh copy with the same entries, and the selected MAC becomes id |
| UseBle.CorBleHook.StartScan | src/components/useBLE.tsx:122-136 | the scan runs and the known peripherals are reloaded (empty on a failed load), with no guard |
| UseBle.CorBleHook.HandleStopScan | src/components/useBLE.tsx:138-141 | the scan is marked stopped |
| UseBle.CorBleHook.HandleDisconnectedPeripheral | src/components/useBLE.tsx:143-157 | a present entry gets connected = false, also in the old Map object, and becomes the selected MAC; an absent id changes nothing; other entries and the key set are unchanged |
| UseBle.CorBleHook.HandleDiscoverPeripheral | src/components/useBLE.tsx:167-189 | a COR-named device that is not known is set in the map (also in the old Map object) and selected, other entries unchanged; any other device changes nothing |
| UseBle.CorBleHook.ReadSoc | src/components/useBLE.tsx:205-258 | a full value sets the four readings to the decoded ones; a shorter value sets the pairs before the first missing byte; the error flag is raised exactly on a failed read or a value under 10 bytes |
| UseBle.CorBleHook.ReadVoltagePower | src/components/useBLE.tsx:260-321 | voltage and power become the decoded values when present; failures never touch the error flag |
| UseBle.CorBleHook.ReadTemperatures | src/components/useBLE.tsx:323-371 | the eight fields are set byte by byte up to the first missing one, the last from byte 8; a full value gives the as-written decoding |
| UseBle.CorBleHook.ReadLed | src/components/useBLE.tsx:373-389 | byte 2 becomes the LED brightness, and when it changed while the system is on it is written back |
| UseBle.CorBleHook.ReadLcd | src/components/useBLE.tsx:391-409 | byte 2 becomes the LCD brightness; failures change nothing |
| UseBle.CorBleHook.ReadCurrent | src/components/useBLE.tsx:411-433 | with 3 bytes the three flags become the decoded bits; otherwise all three are unchanged |
| UseBle.CorBleHook.WriteCurrent | src/components/useBLE.tsx:435-471 | exactly one AC/DC write with header and control byte is issued |
| UseBle.CorBleHook.WriteLed | src/components/useBLE.tsx:473-500 | the LED write is issued only while the system flag is non-zero, otherwise nothing |
| UseBle.CorBleHook.WriteLcd | src/components/useBLE.tsx:502-529 | the LCD write with the given value is issued only while the system flag is non-zero |
| UseBle.CorBleHook.SetLedBrightness | src/components/useBLE.tsx:531-533 | a changed brightness is stored and triggers the guarded LED write |
| UseBle.CorBleHook.ReadAllOnScreen | src/components/useBLE.tsx:587-605 | the four state-of-charge values and the error flag, voltage, signed power, LED brightness, LCD brightness and the three flags each get their read's value or keep the old one; a changed LED brightness is written back while the system was on; the temperature read is not part of it |
| MpptCodec.DecodePowerVoltage | src/components/useBLE_MPPT.tsx:199-218 | power at bytes 2-3 and voltage at bytes 4-5, both unsigned, defined exactly when 6 bytes exist |
| MpptCodec.Temp2AsWritten | src/components/useBLE_MPPT.tsx:259-264 | the second temperature's high byte is byte 3 and its low byte byte 4 |
| MpptCodec.DecodeTemperaturesAsWritten | src/components/useBLE_MPPT.tsx:246-267 | as written, both temperatures always share their high byte |
| MpptCodec.DecodeTemperatures | src/components/Mppt_component.tsx:204-220 | corrected layout: temp1 from bytes 2-3, temp2 from bytes 4-5 |
| MpptCodec.DecodeControl | src/components/useBLE_MPPT.tsx:282-290 | switch and mode are the raw bytes 2 and 3, defined exactly when 4 bytes exist |
| MpptCodec.ControlPayload | src/components/useBLE_MPPT.tsx:336-343 | the control payload has length 4 and carries both arguments modulo 256 |
| MpptCodec.ResetPayload | src/components/useBLE_MPPT.tsx:311-318 | the reset payload has length 4 and ends with 1, 2 |
| MpptCodec.PowerVoltageRoundTrip | src/components/useBLE_MPPT.tsx:199-218 | every power/voltage reading a controller sends decodes to itself |
| MpptCodec.TemperaturesRoundTrip | src/components/Mppt_component.tsx:204-220 | the corrected temperature decoder inverts the controller's layout |
| MpptCodec.TemperaturesAsWrittenRightOnlyOnSharedHighByte | src/components/useBLE_MPPT.tsx:264 | the as-written decoder returns the sent temperatures iff both share their high byte |
| MpptCodec.TemperaturesAsWrittenExample | src/components/useBLE_MPPT.tsx:264 | raw 650 and 1050 are sent as 04 D2 8A 02 1A 04 and read back as 650 and 538 |
| MpptCodec.AsWrittenAgreesOnlyOnEqualHighBytes | src/components/useBLE_MPPT.tsx:264 | the screen's and the background task's decoders agree on a value iff bytes 3 and 5 are equal |
| MpptCodec.ControlRoundTrip | src/components/useBLE_MPPT.tsx:284-290 | reading back a control write gives both arguments modulo 256 |
| MpptCodec.ResetPayloadIsConstant | src/components/useBLE_MPPT.tsx:66 | every reset payload is 04 D2 01 02 |
| UseBleMppt.MpptBleHook.constructor | src/components/useBLE_MPPT.tsx:58-87 | every state variable starts at its `useState` value |
| UseBleMppt.MpptBleHook.AddOrUpdatePeripheral | src/components/useBLE_MPPT.tsx:102-107 | the map is set at id, other ids unchanged, and the selected controller becomes id |
| UseBleMppt.MpptBleHook.StartScan | src/components/useBLE_MPPT.tsx:109-132 | a running scan is left alone; otherwise the map is emptied and the scan marked running |
| UseBleMppt.MpptBleHook.HandleStopScan | src/components/useBLE_MPPT.tsx:134-137 | the scan is marked stopped |
| UseBleMppt.MpptBleHook.HandleDisconnectedPeripheral | src/components/useBLE_MPPT.tsx:139-153 | a present entry gets connected = false and is selected; an absent id changes nothing; other entries unchanged |
| UseBleMppt.MpptBleHook.HandleDiscoverPeripheral | src/components/useBLE_MPPT.tsx:163-172 | a device whose name includes "MPPT" is set and selected, others unchanged; any other device changes nothing |
| UseBleMppt.MpptBleHook.ReadPowerVoltage | src/components/useBLE_MPPT.tsx:187-228 | power then voltage are set from the decoded value, up to the first missing byte; the error flag is raised exactly on a failed read or a value under 6 bytes |
| UseBleMppt.MpptBleHook.ReadTemperatures | src/components/useBLE_MPPT.tsx:230-273 | temp1 then the as-written temp2 are set up to the first missing byte; the error flag is raised exactly on a failed read or a value under 6 bytes |
| UseBleMppt.MpptBleHook.ReadControl | src/components/useBLE_MPPT.tsx:275-297 | switch then mode are set from bytes 2 and 3 up to the first missing byte; the error flag is raised exactly on a failed read or a value under 4 bytes |
| UseBleMppt.MpptBleHook.WriteControl | src/components/useBLE_MPPT.tsx:334-357 | exactly one control write with the given switch and mode is issued |
| UseBleMppt.MpptBleHook.WriteReset | src/components/useBLE_MPPT.tsx:309-332 | exactly one reset write is issued on the reset characteristic |
| UseBleMppt.MpptBleHook.ReadOnScreen | src/components/useBLE_MPPT.tsx:359-367 | temp1, the as-written temp2, the switch and the mode get their reads' values or keep the old ones, and the error flag collects both reads' failures |
| MpptComponent.BackgroundRead | src/components/Mppt_component.tsx:151-229 | the four values start at 0; power and voltage (in tenths) come from the first read, temp1 and temp2 from their own pairs of the second, each only up to the first missing byte; a failed read leaves its values 0 and does not stop the other read |
| MpptComponent.DataStore.SaveToDatabase | src/components/Mppt_component.tsx:256-272 | a successful write appends the sample; a failing one is swallowed and changes nothing |
| MpptComponent.BackgroundTask | src/components/Mppt_component.tsx:151-232 | one background run stores at most one sample, with a single save call: power, voltage in tenths, temp1 and temp2 as its two reads produced them, 0 where a read failed |
| MpptComponent.SystemSwitch.HandleSystemPress | src/components/Mppt_component.tsx:69-77 | the local flag flips, and the callback gets 0 when the flag was on and 1 when it was off |
| ScreenConnection.PressDispatch | src/screens/CorHub.tsx:330-337 | a press connects exactly in 'Connect' and disconnects exactly in 'Connected' |
| ScreenConnection.StatusAfterConnect | src/screens/CorHub.tsx:236-299 | Bluetooth off leaves the status unchanged; the status ends 'Connected' only on success |
| ScreenConnection.StatusAfterDisconnect | src/screens/CorHub.tsx:302-328 | a disconnect ends in 'Connect' iff the transport succeeds and in 'Disconnecting' otherwise |
| ScreenConnection.PressFromConnect | src/screens/CorHub.tsx:330-335 | a press from 'Connect' ends in 'Connect', 'Connecting' or 'Connected', the last exactly on success |
| ScreenConnection.PressFromConnected | src/screens/CorHub.tsx:330-337 | a press from 'Connected' ends in 'Connect', or in 'Disconnecting' when the transport throws |
| ScreenConnection.TransitionalStatusesAreSticky | src/screens/CorHub.tsx:330-337 | no series of presses leaves 'Connecting' or 'Disconnecting' (or the unused 'Searching...') |
| ScreenConnection.Flip | src/screens/CorHub.tsx:392-409 | the switch rule gives 1 exactly from 0 and 0 from anything else |
| CorHub.CorHubScreen.constructor | src/screens/CorHub.tsx:45-58 | the screen starts in 'Connect' with nothing selected or known |
| CorHub.CorHubScreen.LoadStoredPeripherals | src/screens/CorHub.tsx:108-124 | the loaded map becomes the known peripherals and, when non-empty, the very same Map object becomes the hook's listed peripherals |
| CorHub.CorHubScreen.LoadStoredPeripheralsCopied | src/screens/CorHub.tsx:111-117 | corrected mount load: the listed peripherals get a separate copy with the same entries, never the known Map object |
| CorHub.CorHubScreen.PresentModal | src/screens/CorHub.tsx:167-205 | with Bluetooth on the known peripherals are reloaded into a new Map, which is no longer the hook's listed Map object; with it off nothing changes |
| CorHub.CorHubScreen.HandleScan | src/screens/CorHub.tsx:207-215 | the hook's scan starts and the hook's own known peripherals are reloaded |
| CorHub.CorHubScreen.FilterScanResults | src/screens/CorHub.tsx:217-223 | after the wait the listed peripherals become a new Map holding exactly the entries whose id is not known, in their order (PeripheralMap.WithoutIdsAppend) |
| CorHub.CorHubScreen.ConnectDevice | src/screens/CorHub.tsx:236-299 | Bluetooth off changes nothing; otherwise the peripheral is selected and marked connecting; then on failure the selection is cleared and the screen returns to 'Connect' (except a "Bluetooth is off" message, which leaves 'Connecting'); on success it is marked connected, a copy of the known map with it set becomes the known map and is saved, and the screen is 'Connected'; while the known map is the hook's listed Map object, the connecting mark also lands in it |
| CorHub.CorHubScreen.FailConnect | src/screens/CorHub.tsx:283-298 | a "Bluetooth is off" message changes nothing; any other error resets status, selection and index |
| CorHub.CorHubScreen.DisconnectDevice | src/screens/CorHub.tsx:302-328 | 'Disconnecting' with the card selected; on success the entry is marked disconnected, power and SOC are 0, status is 'Connect' and the selection cleared, and the update also lands in the known map when that is the hook's listed Map object; on error nothing else changes |
| CorHub.CorHubScreen.HandleDevicePress | src/screens/CorHub.tsx:330-337 | the status follows the press rule, and a press in any other status changes nothing: selection, both maps, the store, the selected MAC, power and state of charge keep their values |
| CorHub.CorHubScreen.ToggleDc | src/screens/CorHub.tsx:392-396 | the DC flag flips and is written with the unchanged system and AC flags |
| CorHub.CorHubScreen.ToggleAc | src/screens/CorHub.tsx:398-402 | the AC flag flips and is written with the unchanged system and DC flags |
| CorHub.CorHubScreen.ToggleSystem | src/screens/CorHub.tsx:404-409 | the system flag flips, is written with the unchanged AC and DC flags, and currentOnOff is whether it is now on |
| CorHub.CorHubScreen.UpdateLedBrightness | src/screens/CorHub.tsx:384-386 | forwards to the hook's LED setter and its guarded write |
| CorHub.CorHubScreen.UpdateLcdBrightness | src/screens/CorHub.tsx:388-390 | issues the guarded LCD write without storing the value |
| CorHub.CorHubScreen.PollTick | src/screens/CorHub.tsx:365-374 | while 'Connected' each value takes the effect of its read, as for the hook's full read, including the LED write-back; in any other status nothing is read and nothing changes |
| CorHub.CorHubScreen.ErrorEffect | src/screens/CorHub.tsx:358-363 | a raised error flag shows the alert for the first listed peripheral and is then cleared; with nothing listed the effect throws and the flag stays raised; a lowered flag shows nothing |
| CorHub.CorHubScreen.SyncIsConnected | src/screens/CorHub.tsx:376-382 | the screen is connected iff the status is 'Connected' and the state of charge is 0 |
| CorHub.ScanDuringSharedLoad | src/screens/CorHub.tsx:108-124 | as written: SCAN pressed while the stored hub a is still loading, the load landing during the wait, and hubs b and c discovered, leave known = [a, b] (b through the shared Map) and only c listed, with the two maps distinct objects |
| CorHub.ScanDuringCopiedLoad | src/screens/CorHub.tsx:111-117 | with a copied mount load the same steps leave known = [a] and b, c listed |
| CorHub.DiscoveryAfterLoadAsWritten | src/screens/CorHub.tsx:108-124 | as written, after those steps connecting to c saves [a, b, c], although b was never connected |
| CorHub.DiscoveryAfterLoadCorrected | src/screens/CorHub.tsx:111-117 | with the copied load, connecting to c saves [a, c] |
| CorHub.PresentModalEndsSharing | src/screens/CorHub.tsx:167-205 | once the load has finished first, CONNECT's reload separates the two maps, and a later discovery of b is listed but not known |
| CorHub.IsConnectedOnlyBeforeFirstReading | src/screens/CorHub.tsx:376-382 | once a non-zero state of charge is read the screen never reports itself connected |
| CorHub.SocDisplay | src/screens/CorHub.tsx:414 | the displayed value r satisfies 10r <= soc < 10r + 10 |
| CorHub.ToggleDcReadsBack | src/screens/CorHub.tsx:392-396 | the control byte written by a toggle decodes to the flipped flag and the two unchanged ones |
| MpptScreen.MpptScreenState.constructor | src/screens/Mppt.tsx:44-50 | the screen starts in 'Connect' with nothing selected |
| MpptScreen.MpptScreenState.ConnectDevice | src/screens/Mppt.tsx:252-313 | the same connect rules as the hub screen, without touching known peripherals or storage |
| MpptScreen.MpptScreenState.FailConnect | src/screens/Mppt.tsx:296-311 | a "Bluetooth is off" message changes nothing; any other error resets status, selection and index |
| MpptScreen.MpptScreenState.DisconnectDevice | src/screens/Mppt.tsx:316-346 | 'Disconnecting' with the card selected; on success the entry is marked disconnected, the four readings are 0, status is 'Connect' and the selection cleared; on error nothing else changes |
| MpptScreen.MpptScreenState.HandleDevicePress | src/screens/Mppt.tsx:348-355 | the status follows the press rule, and a press in any other status changes nothing: selection, the listed map, the selected controller and the four readings keep their values |
| MpptScreen.MpptScreenState.UpdateSystemOnOff | src/screens/Mppt.tsx:240-248 | the switch flips and the new value is written with the current mode |
| MpptScreen.MpptScreenState.ModeSelectorEffect | src/screens/Mppt.tsx:129-133 | a mode that changed and is not 0 is written with the current switch state; otherwise nothing is written |
| MpptScreen.MpptScreenState.SetModeSelector | src/screens/Mppt.tsx:129-133 | a changed mode is stored and written with the switch state unless it is 0 |
| MpptScreen.MpptScreenState.ControlPollTick | src/screens/Mppt.tsx:129-153 | while 'Connected' the switch, the mode and the error flag take the read's effect, and a mode the read changed to non-zero is written back with the switch just read; otherwise nothing changes |
| MpptScreen.MpptScreenState.TelemetryPollTick | src/screens/Mppt.tsx:129-162 | while the switch is on, temp1, the as-written temp2, the switch, the mode and the error flag take the reads' effect, and a mode the read changed to non-zero is written back; otherwise nothing changes |
| MpptScreen.MpptScreenState.PowerPollTick | src/screens/Mppt.tsx:164-172 | while the switch is on, power and voltage take the read's values and the error flag is raised by a failed or short read; otherwise nothing changes |
| MpptScreen.MpptScreenState.ControlSignalChanged | src/screens/Mppt.tsx:174-176 | every switch change reads power and voltage, ungated |
| MpptScreen.MpptScreenState.SyncIsConnected | src/screens/Mppt.tsx:178-184 | the screen is connected iff the status is 'Connected' and the power is 0 |
| MpptScreen.VoltageDisplay | src/screens/Mppt.tsx:122 | the displayed voltage times 10 is the raw reading |
| MpptScreen.TemperatureDisplay | src/screens/Mppt.tsx:124-127 | raw 0 shows 0; any other raw value shows t with (t + 40) * 10 = raw |
| MpptScreen.TemperatureDisplayInjective | src/screens/Mppt.tsx:124-127 | distinct non-zero readings show distinct temperatures |
| MpptScreen.ZeroDegreesLooksLikeNoReading | src/screens/Mppt.tsx:124-127 | a sensor at exactly 0 °C (raw 400) shows the same 0 as a missing reading |
| GraphStats.LastN | src/components/graphStats.tsx:16-18 | `slice(-5)` keeps min(length, 5) elements, is a suffix of its input, and ends with its last element |
| GraphStats.WindowOfWindow | src/components/graphStats.tsx:14-20 | windowing before each batch equals windowing everything received, so the chart shows the last 5 samples ever |
| GraphStats.PowerChart.constructor | src/components/graphStats.tsx:10-11 | the chart starts empty with count 0 |
| GraphStats.PowerChart.OnPower | src/components/graphStats.tsx:13-25 | an empty batch changes nothing; otherwise data is the last 5 of old data plus the batch and the count grows by the batch size; at most 5 points and count >= points is kept |
| GraphStats.Labels | src/components/graphStats.tsx:28-31 | one label per point, the i-th being (count - points + i) * 30 followed by "s" |
| GraphStats.LabelsReadBack | src/components/graphStats.tsx:28-31 | under the chart invariant each label reads back as its non-negative number of seconds |
| GraphStats.DecimalString | src/components/graphStats.tsx:30 | a number renders as at least one decimal digit |
| GraphStats.IntString | src/components/graphStats.tsx:30 | an integer renders with a leading minus exactly when negative |
| GraphStats.IntStringRoundTrip | src/components/graphStats.tsx:30 | every rendered integer reads back as itself |

## Left out

- The BLE transport (`BleManager.start/scan/connect/read/write/retrieveServices/checkState/disconnect`) and the native event emitter are foreign calls. Their results are parameters: a read outcome, a connect outcome, or a success flag.
- Writes are recorded as issued. A write that the transport rejects is only logged by the app, so the model does not distinguish it.
- Timers and async interleaving are not modelled: the intervals of 2 s, 29 s and 30 s, `sleep`, `setTimeout`, and BackgroundFetch scheduling. Each poll is one atomic tick guarded by its condition.
- MpptScreen.MpptScreenState.DisconnectDevice: the status reset that happens one second later is folded into the same step.
- React batching and stale closures are not modelled. Listeners are registered once with the first render's state, `handleScan` filters the map it captured before the scan, and the control poll calls `setControlSignal(controlSignal)` with its captured value. Every handler here sees the current state.
- MpptScreen.MpptScreenState.ControlPollTick: the captured-value `setControlSignal` is overtaken by the read it precedes, so only the read is modelled.
- Realm (login, subscriptions, `Data.generate` with dates and UUIDs) is reduced to a list of saved samples. The 29-second foreground save in the MPPT card belongs to the timer layer and is not modelled.
- AsyncStorage is one optional value, and JSON serialisation is the identity.
- Floating point is not modelled:
  - `toFixed` rounding is replaced by exact reals in tenths;
  - MpptComponent.BackgroundRead: the voltage is `raw / 10` as an exact real, not the rounded `Number((raw/10).toFixed(2))`, which equals it for every raw value;
  - `Math.ceil(powerValue)` on an integer is the identity.
- The hooks' `connectPeripheral`, `disconnectPeripheral`, `retrieveConnected` and `handleUpdateValueForCharacteristic` are not modelled. The screens do not call them: they call `connectDevice` and `disconnectDevice` instead.
- Wiring between components is not modelled: `setPowerArray([solarPower])` feeding the chart, and the card's switch callback being `updateSystemOnOff`. Each side is modelled separately (PowerChart.OnPower for any batch, SystemSwitch for the callback values), not composed.
- UseBle.CorBleHook.SetLedBrightness: the effect on `[ledBrightness]` also runs once on mount. That initial guarded write is not modelled.
- Presentation is not modelled: toasts, alerts, the back-button handler, the error alert's dialog (its flag handling is CorHub.CorHubScreen.ErrorEffect), navigation, carousel and bottom sheet, and the remaining components, screens and build files.
- CorHub.CorHubScreen.HandleScan: the "no device found" toast is presentation and is left out. The filter that runs 4 s later is the separate step CorHub.CorHubScreen.FilterScanResults.
- UseBle.CorBleHook.ReadAllOnScreen: the `[ledBrightness]` write-back is taken right after the LED read, so it sees the system flag as it was before the flags read of the same pass.
- MpptScreen.MpptScreenState.ControlPollTick: a switch value changed by the read also fires the `[controlSignal]` effect's power read. That read is the separate step MpptScreen.MpptScreenState.ControlSignalChanged and is not folded in.
- MpptScreen.MpptScreenState.TelemetryPollTick: as for ControlPollTick, the `[controlSignal]` power read is the separate step ControlSignalChanged.
- UseBleMppt.MpptBleHook.AddOrUpdatePeripheral: the in-place `set` before the copy is not modelled, because no other holder of the MPPT hook's map exists.

## Findings

| source | as written | input that shows it | evidently intended | confidence | as-written member | corrected member |
|---|---|---|---|---|---|---|
| src/components/useBLE_MPPT.tsx:264 | the second temperature is `(subArrayTemp1[0] << 8) \| subArrayTemp2[1]`: high byte from byte 3 (the first sensor), low byte from byte 4 | sensors at raw 650 and 1050, sent as 04 D2 8A 02 1A 04, are shown as 650 and 538 | `(subArrayTemp2[0] << 8) \| subArrayTemp2[1]`, high byte from byte 5, as the background task does at src/components/Mppt_component.tsx:220 | high (not executed) | MpptCodec.TemperaturesAsWrittenRightOnlyOnSharedHighByte | MpptCodec.TemperaturesRoundTrip |
| src/screens/CorHub.tsx:111-117 | the mount passes one `Map` object to both `setKnownPeripherals` and `setPeripherals`, and `addOrUpdatePeripheral` sets the new entry in that object (src/components/useBLE.tsx:112) before copying it | hub a stored; SCAN is pressed while the mount's load is still pending (the list is empty, so SCAN is offered), and the load lands during the 4.5 s wait; COR hubs b and c are then discovered; with every handler seeing the current state, as throughout this model: known becomes {a, b}, only c is listed, and connecting to c saves [a, b, c]. Once the load has finished first, the screen offers CONNECT instead, whose reload ends the sharing (CorHub.PresentModalEndsSharing), so only this timing shows it | `setPeripherals(new Map(storedPeripherals))`, so that discovery never touches the known map | low (not executed) | CorHub.DiscoveryAfterLoadAsWritten | CorHub.DiscoveryAfterLoadCorrected |
| src/components/useBLE.tsx:364 | the third battery's maximum temperature re-reads byte 8, the byte of its minimum | a third battery at minimum 20 and maximum 35 shows a maximum of 20 | read byte 9, following the pattern of the other seven fields | high (not executed) | CorCodec.TemperaturesAsWrittenLosesMaxExt3 | CorCodec.TemperaturesRoundTrip |

The hooks' read methods keep the as-written decoders, so that the model behaves like the app. The corrected decoders are the ones proved to invert the devices' layouts. The MPPT background task decodes with the corrected one, as its source does. The hub screen's mount keeps the as-written shared `Map` (CorHub.CorHubScreen.LoadStoredPeripherals); CorHub.CorHubScreen.LoadStoredPeripheralsCopied is the corrected load.
