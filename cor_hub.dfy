/** The COR hub screen: connecting to and disconnecting from a hub, the scan that hides the
    already known hubs, the AC/DC/system switches and the derived display values. The screen
    owns its connection state and its own copy of the known peripherals; it drives the
    `useBle` hook and the known-peripherals store. */
module CorHub {
  import opened ByteCodec
  import opened PeripheralMap
  import opened CorCodec
  import opened UseBle
  import opened StorageDevices
  import opened ScreenConnection

  class CorHubScreen {
    const ble: CorBleHook
    const store: KnownPeripheralStore
    var connectionStatus: ConnectionStatus
    var selectedItemIndex: Option<int>
    var selectedPeripheral: Option<Peripheral>
    var knownPeripherals: PeripheralTable
    var currentOnOff: bool
    var isConnected: bool

    ghost predicate Valid()
      reads this, ble, ble.peripherals, knownPeripherals
    {
      ble.Valid() && DistinctKeys(knownPeripherals.entries) && WellKeyed(knownPeripherals.entries)
    }

    constructor (ble: CorBleHook, store: KnownPeripheralStore)
      requires ble.Valid()
      ensures Valid() && this.ble == ble && this.store == store && fresh(knownPeripherals)
      ensures connectionStatus == Connect && selectedItemIndex.None? && selectedPeripheral.None?
      ensures knownPeripherals.entries == [] && !currentOnOff && !isConnected
    {
      this.ble, this.store := ble, store;
      connectionStatus, selectedItemIndex, selectedPeripheral := Connect, None, None;
      knownPeripherals := new PeripheralTable([]);
      currentOnOff, isConnected := false, false;
    }

    /** The mount effect: the loaded map becomes the known peripherals and, when it is not
        empty, the very same `Map` object becomes the hook's listed peripherals. A failing
        load gives the empty map. */
    method LoadStoredPeripherals(loadOk: bool)
      requires Valid()
      modifies this`knownPeripherals, ble`peripherals
      ensures Valid() && fresh(knownPeripherals)
      ensures knownPeripherals.entries == if loadOk && store.stored.Some? then FromList(store.stored.value) else []
      ensures ble.peripherals == if knownPeripherals.entries != [] then knownPeripherals else old(ble.peripherals)
    {
      var loaded := store.Load(loadOk);
      knownPeripherals := new PeripheralTable(loaded);
      if |loaded| > 0 {
        ble.peripherals := knownPeripherals;
      }
    }

    /** The mount effect with the listed peripherals given their own copy of the loaded map
        (`setPeripherals(new Map(storedPeripherals))`): afterwards no update of the listed
        map can reach the known one. */
    method LoadStoredPeripheralsCopied(loadOk: bool)
      requires Valid()
      modifies this`knownPeripherals, ble`peripherals
      ensures Valid() && fresh(knownPeripherals)
      ensures knownPeripherals.entries == if loadOk && store.stored.Some? then FromList(store.stored.value) else []
      ensures knownPeripherals.entries != [] ==> fresh(ble.peripherals) && ble.peripherals.entries == knownPeripherals.entries
      ensures knownPeripherals.entries == [] ==> ble.peripherals == old(ble.peripherals)
      ensures ble.peripherals != knownPeripherals
    {
      var loaded := store.Load(loadOk);
      knownPeripherals := new PeripheralTable(loaded);
      if |loaded| > 0 {
        ble.peripherals := new PeripheralTable(loaded);
      }
    }

    /** `handlePresentModalPress`: with Bluetooth on, the known peripherals are reloaded into
        a new `Map` (opening or closing the sheet is presentation); with Bluetooth off
        nothing changes. */
    method PresentModal(adapterOn: bool, loadOk: bool)
      requires Valid()
      modifies this`knownPeripherals
      ensures Valid()
      ensures adapterOn ==> fresh(knownPeripherals) && knownPeripherals != ble.peripherals
      ensures adapterOn ==>
        knownPeripherals.entries == if loadOk && store.stored.Some? then FromList(store.stored.value) else []
      ensures !adapterOn ==> knownPeripherals == old(knownPeripherals)
    {
      if adapterOn {
        var loaded := store.Load(loadOk);
        knownPeripherals := new PeripheralTable(loaded);
      }
    }

    /** `handleScan` up to its 4.5-second wait: the hook's scan starts (reloading the hook's
        own known peripherals). Discoveries arrive while the screen waits. */
    method HandleScan(storageOk: bool)
      requires Valid()
      modifies ble`isScanning, ble`knownPeripherals
      ensures Valid() && ble.isScanning
      ensures ble.knownPeripherals == if storageOk && store.stored.Some? then FromList(store.stored.value) else []
    {
      ble.StartScan(store, storageOk);
    }

    /** `handleScan` after the wait: the listed peripherals are replaced by a new `Map` of
        those whose id is not a known one, in their order. */
    method FilterScanResults()
      requires Valid()
      modifies ble`peripherals
      ensures Valid() && fresh(ble.peripherals)
      ensures ble.peripherals.entries == WithoutIds(old(ble.peripherals.entries), Keys(knownPeripherals.entries))
      ensures forall e :: e in ble.peripherals.entries <==>
        e in old(ble.peripherals.entries) && !Has(knownPeripherals.entries, e.value.id)
    {
      ble.peripherals := new PeripheralTable(WithoutIds(ble.peripherals.entries, Keys(knownPeripherals.entries)));
    }

    /** `connectDevice`. With Bluetooth off nothing changes. Otherwise the card is selected,
        the entry is marked connecting, and then:
        - a failed connect or service discovery clears the selection and returns to
          'Connect', unless the error message is "Bluetooth is off", which leaves the
          screen 'Connecting';
        - on success the entry is marked connected, a copy of the known map with the
          peripheral set in it becomes the known map and is saved, the selection is cleared
          and the screen is 'Connected'.
        When the known map is the very object the hook lists, the first update of the entry
        also lands in the known map. */
    method ConnectDevice(p: Peripheral, index: int, outcome: ConnectOutcome, saveOk: bool)
      requires Valid()
      modifies this`connectionStatus, this`selectedItemIndex, this`selectedPeripheral, this`knownPeripherals,
               ble`peripherals, ble`peripheralMAC, ble.peripherals, store
      ensures Valid()
      ensures connectionStatus == StatusAfterConnect(old(connectionStatus), outcome)
      ensures outcome.AdapterOff? ==>
        && selectedItemIndex == old(selectedItemIndex) && selectedPeripheral == old(selectedPeripheral)
        && ble.peripherals == old(ble.peripherals) && ble.peripherals.entries == old(ble.peripherals.entries)
        && ble.peripheralMAC == old(ble.peripheralMAC)
      ensures !outcome.AdapterOff? ==> ble.peripheralMAC == p.id
      ensures !outcome.AdapterOff? ==>
        forall j :: j != p.id ==> Get(ble.peripherals.entries, j) == Get(old(ble.peripherals.entries), j)
      ensures outcome.ConnectError? ==> Get(ble.peripherals.entries, p.id) == Some(p.(connecting := true))
      ensures outcome.ServicesError? || outcome.ConnectOk? ==>
        Get(ble.peripherals.entries, p.id) == Some(p.(connecting := false, connected := true))
      ensures (outcome.ConnectError? || outcome.ServicesError?) ==>
        if outcome.bluetoothOffMessage
        then selectedItemIndex == Some(index) && selectedPeripheral == Some(p)
        else selectedItemIndex.None? && selectedPeripheral.None?
      ensures outcome.ConnectOk? ==> selectedItemIndex == Some(index) && selectedPeripheral.None?
      ensures knownPeripherals.entries ==
        if outcome.ConnectOk? then Set(old(knownPeripherals.entries), p.id, p)
        else if !outcome.AdapterOff? && old(knownPeripherals) == old(ble.peripherals)
        then Set(old(knownPeripherals.entries), p.id, p.(connecting := true))
        else old(knownPeripherals.entries)
      ensures store.stored == if outcome.ConnectOk? && saveOk then Some(Values(knownPeripherals.entries)) else old(store.stored)
    {
      if outcome.AdapterOff? {
        return;
      }
      connectionStatus := Connecting;
      selectedItemIndex := Some(index);
      selectedPeripheral := Some(p);
      ble.AddOrUpdatePeripheral(p.id, p.(connecting := true));
      if outcome.ConnectError? {
        FailConnect(outcome.bluetoothOffMessage);
        return;
      }
      ble.AddOrUpdatePeripheral(p.id, p.(connecting := false, connected := true));
      if outcome.ServicesError? {
        FailConnect(outcome.bluetoothOffMessage);
        return;
      }
      SetTwice(old(knownPeripherals.entries), p.id, p.(connecting := true), p);
      var updated := Set(knownPeripherals.entries, p.id, p);
      knownPeripherals := new PeripheralTable(updated);
      store.Save(updated, saveOk);
      selectedPeripheral := None;
      connectionStatus := Connected;
    }

    /** The catch block of `connectDevice`. */
    method FailConnect(bluetoothOffMessage: bool)
      modifies this`connectionStatus, this`selectedItemIndex, this`selectedPeripheral
      ensures bluetoothOffMessage ==>
        && connectionStatus == old(connectionStatus)
        && selectedItemIndex == old(selectedItemIndex) && selectedPeripheral == old(selectedPeripheral)
      ensures !bluetoothOffMessage ==> connectionStatus == Connect && selectedItemIndex.None? && selectedPeripheral.None?
    {
      if !bluetoothOffMessage {
        connectionStatus := Connect;
        selectedPeripheral := None;
        selectedItemIndex := None;
      }
    }

    /** `disconnectDevice`: the card is selected and the screen is 'Disconnecting'. When the
        transport disconnect succeeds the entry is marked neither connected nor connecting,
        power and state of charge are reset to 0, the selection is cleared and the screen
        returns to 'Connect'; when it throws, the screen stays 'Disconnecting'. The update
        reaches the known map too when it is the object the hook lists. */
    method DisconnectDevice(p: Peripheral, index: int, ok: bool)
      requires Valid()
      modifies this`connectionStatus, this`selectedItemIndex, this`selectedPeripheral,
               ble`peripherals, ble`peripheralMAC, ble.peripherals, ble`powerValue, ble`socValue
      ensures Valid()
      ensures connectionStatus == StatusAfterDisconnect(ok)
      ensures selectedItemIndex == Some(index)
      ensures selectedPeripheral == if ok then None else Some(p)
      ensures ok ==>
        && Get(ble.peripherals.entries, p.id) == Some(p.(connecting := false, connected := false))
        && (forall j :: j != p.id ==> Get(ble.peripherals.entries, j) == Get(old(ble.peripherals.entries), j))
        && ble.peripheralMAC == p.id && ble.powerValue == 0 && ble.socValue == 0
      ensures !ok ==>
        && ble.peripherals == old(ble.peripherals) && ble.peripherals.entries == old(ble.peripherals.entries)
        && ble.peripheralMAC == old(ble.peripheralMAC)
        && ble.powerValue == old(ble.powerValue) && ble.socValue == old(ble.socValue)
      ensures knownPeripherals.entries ==
        if ok && knownPeripherals == old(ble.peripherals)
        then Set(old(knownPeripherals.entries), p.id, p.(connecting := false, connected := false))
        else old(knownPeripherals.entries)
    {
      selectedPeripheral := Some(p);
      selectedItemIndex := Some(index);
      connectionStatus := Disconnecting;
      if !ok {
        return;
      }
      ble.AddOrUpdatePeripheral(p.id, p.(connecting := false, connected := false));
      ble.powerValue := 0;
      ble.socValue := 0;
      connectionStatus := Connect;
      selectedPeripheral := None;
    }

    /** `handleDevicePress`: connect from 'Connect', disconnect from 'Connected', nothing in
        any other status. */
    method HandleDevicePress(p: Peripheral, index: int, outcome: ConnectOutcome, saveOk: bool, disconnectOk: bool)
      requires Valid()
      modifies this`connectionStatus, this`selectedItemIndex, this`selectedPeripheral, this`knownPeripherals,
               ble`peripherals, ble`peripheralMAC, ble.peripherals, ble`powerValue, ble`socValue, store
      ensures Valid()
      ensures connectionStatus == StatusAfterPress(old(connectionStatus), outcome, disconnectOk)
      ensures PressDispatch(old(connectionStatus)) == NoAction ==>
        && selectedItemIndex == old(selectedItemIndex) && selectedPeripheral == old(selectedPeripheral)
        && knownPeripherals == old(knownPeripherals) && knownPeripherals.entries == old(knownPeripherals.entries)
        && ble.peripherals == old(ble.peripherals) && ble.peripherals.entries == old(ble.peripherals.entries)
        && store.stored == old(store.stored)
        && ble.peripheralMAC == old(ble.peripheralMAC) && ble.powerValue == old(ble.powerValue)
        && ble.socValue == old(ble.socValue)
    {
      if connectionStatus == Connect {
        ConnectDevice(p, index, outcome, saveOk);
      } else if connectionStatus == Connected {
        DisconnectDevice(p, index, disconnectOk);
      }
    }

    /** `upadateDCCurrent`: flips the DC flag and writes it with the other two flags. */
    method ToggleDc()
      modifies ble`dcOnOff, ble`writes
      ensures ble.dcOnOff == Flip(old(ble.dcOnOff))
      ensures ble.writes == old(ble.writes) + [Write(ble.peripheralMAC, CorControlsChar, CorAcDc,
        CurrentPayload(SystemTimeTick, ble.systemOnOff, ble.acOnOff, ble.dcOnOff))]
    {
      var newDc := Flip(ble.dcOnOff);
      ble.dcOnOff := newDc;
      ble.WriteCurrent(ble.systemOnOff, ble.acOnOff, newDc);
    }

    /** `upadateACCurrent`: flips the AC flag and writes it with the other two flags. */
    method ToggleAc()
      modifies ble`acOnOff, ble`writes
      ensures ble.acOnOff == Flip(old(ble.acOnOff))
      ensures ble.writes == old(ble.writes) + [Write(ble.peripheralMAC, CorControlsChar, CorAcDc,
        CurrentPayload(SystemTimeTick, ble.systemOnOff, ble.acOnOff, ble.dcOnOff))]
    {
      var newAc := Flip(ble.acOnOff);
      ble.acOnOff := newAc;
      ble.WriteCurrent(ble.systemOnOff, newAc, ble.dcOnOff);
    }

    /** `updateSystemCurrent`: flips the system flag, writes it with the other two flags, and
        records whether the system is now on. */
    method ToggleSystem()
      modifies ble`systemOnOff, ble`writes, this`currentOnOff
      ensures ble.systemOnOff == Flip(old(ble.systemOnOff))
      ensures ble.writes == old(ble.writes) + [Write(ble.peripheralMAC, CorControlsChar, CorAcDc,
        CurrentPayload(SystemTimeTick, ble.systemOnOff, ble.acOnOff, ble.dcOnOff))]
      ensures currentOnOff <==> old(ble.systemOnOff) == 0
    {
      var newSystem := Flip(ble.systemOnOff);
      ble.systemOnOff := newSystem;
      ble.WriteCurrent(newSystem, ble.acOnOff, ble.dcOnOff);
      currentOnOff := newSystem == 1;
    }

    /** `updateLedBrightness`: forwards to the hook's setter and its write effect. */
    method UpdateLedBrightness(v: int)
      modifies ble`ledBrightness, ble`writes
      ensures ble.ledBrightness == v
      ensures ble.writes == if v != old(ble.ledBrightness) && ble.systemOnOff != 0
                            then old(ble.writes) + [LedWrite(ble.peripheralMAC, v)]
                            else old(ble.writes)
    {
      ble.SetLedBrightness(v);
    }

    /** `updateLCDBrightness`: writes the value straight away (nothing is stored). */
    method UpdateLcdBrightness(v: int)
      modifies ble`writes
      ensures ble.writes == if ble.systemOnOff != 0
                            then old(ble.writes) + [Write(ble.peripheralMAC, CorControlsChar, CorLcdChar, BrightnessPayload(SystemTimeTick, v))]
                            else old(ble.writes)
    {
      ble.WriteLcd(v);
    }

    /** The effect on `[connectionStatus, socValue]`. */
    method SyncIsConnected()
      modifies this`isConnected
      ensures isConnected <==> IsConnectedRule(connectionStatus, ble.socValue)
    {
      isConnected := connectionStatus == Connected && ble.socValue == 0;
    }

    /** One tick of the 2-second poll: the hook reads the screen's values only while the hub
        is 'Connected'; in any other status nothing is read and nothing changes. */
    method PollTick(soc: ReadOutcome, vp: ReadOutcome, led: ReadOutcome, lcd: ReadOutcome, current: ReadOutcome)
      modifies ble`socValue, ble`socExt1Value, ble`socExt2Value, ble`socExt3Value, ble`hasError,
               ble`voltageValue, ble`powerValue, ble`ledBrightness, ble`writes, ble`lcdBrightness,
               ble`systemOnOff, ble`acOnOff, ble`dcOnOff
      ensures connectionStatus != Connected ==>
        && ble.socValue == old(ble.socValue) && ble.socExt1Value == old(ble.socExt1Value)
        && ble.socExt2Value == old(ble.socExt2Value) && ble.socExt3Value == old(ble.socExt3Value)
        && ble.hasError == old(ble.hasError) && ble.voltageValue == old(ble.voltageValue)
        && ble.powerValue == old(ble.powerValue) && ble.ledBrightness == old(ble.ledBrightness)
        && ble.writes == old(ble.writes) && ble.lcdBrightness == old(ble.lcdBrightness)
        && ble.systemOnOff == old(ble.systemOnOff) && ble.acOnOff == old(ble.acOnOff)
        && ble.dcOnOff == old(ble.dcOnOff)
      ensures connectionStatus == Connected ==>
        && ble.hasError == (old(ble.hasError) || soc.ReadFailed? || |soc.data| < 10)
        && ble.socValue == PairOr(soc, SocOffset(0), old(ble.socValue))
        && ble.socExt1Value == PairOr(soc, SocOffset(1), old(ble.socExt1Value))
        && ble.socExt2Value == PairOr(soc, SocOffset(2), old(ble.socExt2Value))
        && ble.socExt3Value == PairOr(soc, SocOffset(3), old(ble.socExt3Value))
        && ble.voltageValue == PairOr(vp, 2, old(ble.voltageValue))
        && ble.powerValue == (if vp.ReadBytes? && |vp.data| >= 6 then PowerAt(vp.data).value else old(ble.powerValue))
        && ble.ledBrightness == ByteOr(led, 2, old(ble.ledBrightness))
        && ble.lcdBrightness == ByteOr(lcd, 2, old(ble.lcdBrightness))
      ensures connectionStatus == Connected ==>
        ble.writes == if ble.ledBrightness != old(ble.ledBrightness) && old(ble.systemOnOff) != 0
                      then old(ble.writes) + [LedWrite(ble.peripheralMAC, ble.ledBrightness)]
                      else old(ble.writes)
      ensures connectionStatus == Connected && current.ReadBytes? && |current.data| >= 3 ==>
        var st := DecodeStatus(current.data).value;
        ble.systemOnOff == st.systemOn && ble.acOnOff == st.ac && ble.dcOnOff == st.dc
      ensures !(connectionStatus == Connected && current.ReadBytes? && |current.data| >= 3) ==>
        ble.systemOnOff == old(ble.systemOnOff) && ble.acOnOff == old(ble.acOnOff) && ble.dcOnOff == old(ble.dcOnOff)
    {
      if connectionStatus == Connected {
        ble.ReadAllOnScreen(soc, vp, led, lcd, current);
      }
    }

    /** The effect on `[hasError, peripherals]`: a raised error flag shows the error alert for
        the first listed peripheral (whose button leads to `disconnectDevice`), and the flag is
        then cleared. With the flag raised and nothing listed, `Array.from(peripherals)[0][1]`
        throws before the flag is cleared, so the flag stays raised. */
    method ErrorEffect() returns (alert: ErrorAlert)
      modifies ble`hasError
      ensures alert == (if !old(ble.hasError) then NoAlert
                        else if ble.peripherals.entries == [] then AlertThrew
                        else AlertFor(ble.peripherals.entries[0].value))
      ensures ble.hasError <==> alert == AlertThrew
    {
      alert := NoAlert;
      if ble.hasError {
        if ble.peripherals.entries == [] {
          return AlertThrew;
        }
        alert := AlertFor(ble.peripherals.entries[0].value);
      }
      ble.hasError := false;
    }
  }

  /** What the error effect does: nothing, the alert offering to disconnect the given
      peripheral, or a throw on an empty peripheral list. */
  datatype ErrorAlert = NoAlert | AlertFor(peripheral: Peripheral) | AlertThrew

  /** The screen counts as connected while the hub is 'Connected' and no state-of-charge
      reading has arrived yet. */
  predicate IsConnectedRule(s: ConnectionStatus, soc: int)
  {
    s == Connected && soc == 0
  }

  /** Once a non-zero state of charge has been read, the screen no longer reports itself as
      connected, whatever the status. */
  lemma IsConnectedOnlyBeforeFirstReading(s: ConnectionStatus, soc: int)
    requires soc != 0
    ensures !IsConnectedRule(s, soc)
  {
  }

  /** `Math.floor(socValue / 10)`: the state of charge in tenths, rounded down. */
  function SocDisplay(soc: int): (r: int)
    ensures r * 10 <= soc < r * 10 + 10
  {
    soc / 10
  }

  /** The written control byte reads back as the flipped flag and the two unchanged ones. */
  lemma {:induction false} ToggleDcReadsBack(tick: int, on: int, ac: int, dc: int)
    requires 0 <= on <= 1 && 0 <= ac <= 1
    ensures DecodeStatus(CurrentPayload(tick, on, ac, Flip(dc))) == Some(Status(tick % 0x1_0000, on, ac, Flip(dc)))
  {
    var f := Flip(dc);
    assert on % 2 == on && ac % 2 == ac && f % 2 == f;
    CurrentRoundTrip(tick, on, ac, f);
  }

  /** The map loaded from a store holding the single record `a`. */
  lemma {:induction false} FromSingleRecord(a: Peripheral)
    ensures FromList([a]) == [Entry(a.id, a)]
  {
    assert [a][..0] == [];
  }

  /** The maps the scenarios below build, for three hubs with distinct ids: each `set` of a
      new hub appends it. */
  lemma ThreeHubSets(a: Peripheral, b: Peripheral, c: Peripheral)
    requires a.id != b.id && a.id != c.id && b.id != c.id
    ensures Set([Entry(a.id, a)], b.id, b) == [Entry(a.id, a), Entry(b.id, b)]
    ensures Set([Entry(a.id, a)], c.id, c) == [Entry(a.id, a), Entry(c.id, c)]
    ensures Set([Entry(a.id, a), Entry(b.id, b)], c.id, c) == [Entry(a.id, a), Entry(b.id, b), Entry(c.id, c)]
  {
    SetNewKeyAppends([Entry(a.id, a)], b.id, b);
    SetNewKeyAppends([Entry(a.id, a)], c.id, c);
    SetNewKeyAppends([Entry(a.id, a), Entry(b.id, b)], c.id, c);
  }

  /** The scan filter over the three hubs with `a` and `b` known keeps `c` alone. */
  lemma ThreeHubFilterTwoKnown(a: Peripheral, b: Peripheral, c: Peripheral)
    requires a.id != c.id && b.id != c.id
    ensures WithoutIds([Entry(a.id, a), Entry(b.id, b), Entry(c.id, c)], {a.id, b.id}) == [Entry(c.id, c)]
  {
    var ea, eb, ec := Entry(a.id, a), Entry(b.id, b), Entry(c.id, c);
    assert [ea, eb, ec] == [ea] + ([eb] + [ec]);
    WithoutIdsSingle(ea, {a.id, b.id});
    WithoutIdsSingle(eb, {a.id, b.id});
    WithoutIdsSingle(ec, {a.id, b.id});
    WithoutIdsAppend([eb], [ec], {a.id, b.id});
    WithoutIdsAppend([ea], [eb] + [ec], {a.id, b.id});
  }

  /** The scan filter over the three hubs with `a` alone known keeps `b` and `c`. */
  lemma ThreeHubFilterOneKnown(a: Peripheral, b: Peripheral, c: Peripheral)
    requires a.id != b.id && a.id != c.id
    ensures WithoutIds([Entry(a.id, a), Entry(b.id, b), Entry(c.id, c)], {a.id}) == [Entry(b.id, b), Entry(c.id, c)]
  {
    var ea, eb, ec := Entry(a.id, a), Entry(b.id, b), Entry(c.id, c);
    assert [ea, eb, ec] == [ea] + ([eb] + [ec]);
    WithoutIdsSingle(ea, {a.id});
    WithoutIdsSingle(eb, {a.id});
    WithoutIdsSingle(ec, {a.id});
    WithoutIdsAppend([eb], [ec], {a.id});
    WithoutIdsAppend([ea], [eb] + [ec], {a.id});
  }

  /** As written, from the screen: the list is still empty when the mount's load starts, so
      SCAN is offered and pressed; the stored hub `a` arrives during the scan's wait, and the
      mount hands one `Map` object to both the known and the listed peripherals. The hook's
      in-place `set` for the first hub discovered after that, `b`, makes `b` a known
      peripheral, so the filter hides it and lists only the next hub `c`. */
  method ScanDuringSharedLoad(a: Peripheral, b: Peripheral, c: Peripheral) returns (screen: CorHubScreen)
    requires a.id != b.id && a.id != c.id && b.id != c.id && IsCorName(b.name) && IsCorName(c.name)
    ensures fresh(screen) && fresh(screen.ble) && fresh(screen.store) && fresh(screen.ble.peripherals)
    ensures screen.Valid() && screen.store.stored == Some([a])
    ensures screen.knownPeripherals != screen.ble.peripherals
    ensures screen.knownPeripherals.entries == [Entry(a.id, a), Entry(b.id, b)]
    ensures screen.ble.peripherals.entries == [Entry(c.id, c)]
  {
    FromSingleRecord(a);
    ThreeHubSets(a, b, c);
    var store := new KnownPeripheralStore(Some([a]));
    var ble := new CorBleHook();
    screen := new CorHubScreen(ble, store);
    screen.HandleScan(true);
    assert !Has(ble.knownPeripherals, b.id) && !Has(ble.knownPeripherals, c.id);
    screen.LoadStoredPeripherals(true);
    assert ble.peripherals == screen.knownPeripherals;
    ble.HandleDiscoverPeripheral(b);
    assert screen.knownPeripherals.entries == [Entry(a.id, a), Entry(b.id, b)];
    assert ble.peripherals != screen.knownPeripherals;
    ble.HandleDiscoverPeripheral(c);
    assert ble.peripherals.entries == [Entry(a.id, a), Entry(b.id, b), Entry(c.id, c)];
    assert Keys(screen.knownPeripherals.entries) == {a.id, b.id};
    screen.FilterScanResults();
    ThreeHubFilterTwoKnown(a, b, c);
  }

  /** The same steps when the listed peripherals get their own copy of the loaded map: the
      known map stays as stored and both new hubs are listed. */
  method ScanDuringCopiedLoad(a: Peripheral, b: Peripheral, c: Peripheral) returns (screen: CorHubScreen)
    requires a.id != b.id && a.id != c.id && b.id != c.id && IsCorName(b.name) && IsCorName(c.name)
    ensures fresh(screen) && fresh(screen.ble) && fresh(screen.store) && fresh(screen.ble.peripherals)
    ensures screen.Valid() && screen.store.stored == Some([a])
    ensures screen.knownPeripherals != screen.ble.peripherals
    ensures screen.knownPeripherals.entries == [Entry(a.id, a)]
    ensures screen.ble.peripherals.entries == [Entry(b.id, b), Entry(c.id, c)]
  {
    FromSingleRecord(a);
    ThreeHubSets(a, b, c);
    var store := new KnownPeripheralStore(Some([a]));
    var ble := new CorBleHook();
    screen := new CorHubScreen(ble, store);
    screen.HandleScan(true);
    assert !Has(ble.knownPeripherals, b.id) && !Has(ble.knownPeripherals, c.id);
    screen.LoadStoredPeripheralsCopied(true);
    assert ble.peripherals != screen.knownPeripherals;
    ble.HandleDiscoverPeripheral(b);
    assert ble.peripherals.entries == [Entry(a.id, a), Entry(b.id, b)];
    ble.HandleDiscoverPeripheral(c);
    assert ble.peripherals.entries == [Entry(a.id, a), Entry(b.id, b), Entry(c.id, c)];
    assert screen.knownPeripherals.entries == [Entry(a.id, a)];
    assert Keys(screen.knownPeripherals.entries) == {a.id};
    screen.FilterScanResults();
    ThreeHubFilterOneKnown(a, b, c);
  }

  /** As written: after the shared load and scan, connecting to the listed hub `c` saves `b`
      too, although `b` was never connected. */
  method DiscoveryAfterLoadAsWritten(a: Peripheral, b: Peripheral, c: Peripheral)
    returns (known: Entries, listed: Entries, saved: Option<seq<Peripheral>>)
    requires a.id != b.id && a.id != c.id && b.id != c.id && IsCorName(b.name) && IsCorName(c.name)
    ensures known == [Entry(a.id, a), Entry(b.id, b)]
    ensures listed == [Entry(c.id, c)]
    ensures saved == Some([a, b, c])
  {
    var screen := ScanDuringSharedLoad(a, b, c);
    known, listed := screen.knownPeripherals.entries, screen.ble.peripherals.entries;
    screen.ConnectDevice(c, 0, ConnectOk, true);
    saved := screen.store.stored;
    ThreeHubSets(a, b, c);
    assert Values([Entry(a.id, a), Entry(b.id, b), Entry(c.id, c)]) == [a, b, c];
    assert Values([Entry(a.id, a), Entry(c.id, c)]) == [a, c];
  }

  /** Corrected: after the copied load and the same scan, connecting to `c` saves exactly the
      hubs that were connected. */
  method DiscoveryAfterLoadCorrected(a: Peripheral, b: Peripheral, c: Peripheral)
    returns (known: Entries, listed: Entries, saved: Option<seq<Peripheral>>)
    requires a.id != b.id && a.id != c.id && b.id != c.id && IsCorName(b.name) && IsCorName(c.name)
    ensures known == [Entry(a.id, a)]
    ensures listed == [Entry(b.id, b), Entry(c.id, c)]
    ensures saved == Some([a, c])
  {
    var screen := ScanDuringCopiedLoad(a, b, c);
    known, listed := screen.knownPeripherals.entries, screen.ble.peripherals.entries;
    screen.ConnectDevice(c, 0, ConnectOk, true);
    saved := screen.store.stored;
    ThreeHubSets(a, b, c);
    assert Values([Entry(a.id, a), Entry(b.id, b), Entry(c.id, c)]) == [a, b, c];
    assert Values([Entry(a.id, a), Entry(c.id, c)]) == [a, c];
  }

  /** Once the load has finished with a stored hub, the screen offers CONNECT rather than
      SCAN, and CONNECT reloads the known peripherals into a new `Map` before the sheet
      opens: from then on a discovery no longer reaches the known map. */
  method PresentModalEndsSharing(a: Peripheral, b: Peripheral)
    returns (known: Entries, listed: Entries)
    requires a.id != b.id && IsCorName(b.name)
    ensures known == [Entry(a.id, a)]
    ensures listed == [Entry(a.id, a), Entry(b.id, b)]
  {
    FromSingleRecord(a);
    SetNewKeyAppends([Entry(a.id, a)], b.id, b);
    var store := new KnownPeripheralStore(Some([a]));
    var ble := new CorBleHook();
    var screen := new CorHubScreen(ble, store);
    screen.LoadStoredPeripherals(true);
    assert ble.peripherals == screen.knownPeripherals && ble.peripherals.entries != [];
    screen.PresentModal(true, true);
    assert ble.peripherals != screen.knownPeripherals;
    screen.HandleScan(true);
    assert !Has(ble.knownPeripherals, b.id);
    ble.HandleDiscoverPeripheral(b);
    known, listed := screen.knownPeripherals.entries, ble.peripherals.entries;
  }
}
