/** The `useBle` hook: the state the COR hub screen reads (telemetry, control flags, the
    discovered-peripheral map) and the operations that update it. Each React state variable is
    a field; a setter call is an assignment. A `BleManager.read` is given to a method as its
    outcome, and every `BleManager.write` the hook issues is appended to `writes`. */
module UseBle {
  import opened ByteCodec
  import opened PeripheralMap
  import opened CorCodec
  import StorageDevices

  const CorUuid: string := "E909900B-38D7-0000-8FE1-2A48A02B36E6"
  const CorControlsChar: string := "E90C930B-38D7-0000-8FE1-2A48A02B36E6"
  const CorAcDc: string := "E93C930B-38D7-0000-8FE1-2A48A02B36E6"
  const CorLedChar: string := "E91C930B-38D7-0000-8FE1-2A48A02B36E6"
  const CorLcdChar: string := "E92C930B-38D7-0000-8FE1-2A48A02B36E6"

  /** The discovery filter: a name is present, non-empty, and contains "COR2" or "COR". */
  predicate IsCorName(name: Option<string>)
  {
    name.Some? && name.value != "" && (Contains(name.value, "COR2") || Contains(name.value, "COR"))
  }

  /** The "COR2" alternative adds nothing: the filter accepts exactly the names containing "COR". */
  lemma {:induction false} IsCorNameIffContainsCor(name: Option<string>)
    ensures IsCorName(name) <==> name.Some? && Contains(name.value, "COR")
  {
    if name.Some? && Contains(name.value, "COR2") {
      assert "COR2" == "COR" + "2";
      ContainsPrefix(name.value, "COR", "2");
    }
  }

  class CorBleHook {
    var isScanning: bool
    var peripherals: PeripheralTable
    var peripheralMAC: string
    var knownPeripherals: Entries
    var hasError: bool
    var socValue: int
    var socExt1Value: int
    var socExt2Value: int
    var socExt3Value: int
    var powerValue: int
    var voltageValue: int
    var temperatures: Temperatures
    var ledBrightness: int
    var lcdBrightness: int
    var systemOnOff: int
    var acOnOff: int
    var dcOnOff: int
    var writes: seq<Write>

    /** Both maps are genuine `Map`s keyed by their peripherals' ids. */
    ghost predicate Valid()
      reads this, peripherals
    {
      && DistinctKeys(peripherals.entries) && WellKeyed(peripherals.entries)
      && DistinctKeys(knownPeripherals) && WellKeyed(knownPeripherals)
    }

    /** The hook's initial state: every `useState` initial value. */
    constructor ()
      ensures Valid() && fresh(peripherals)
      ensures !isScanning && peripherals.entries == [] && peripheralMAC == "" && knownPeripherals == []
      ensures !hasError && socValue == socExt1Value == socExt2Value == socExt3Value == 0
      ensures powerValue == voltageValue == 0 && temperatures == Temperatures(0, 0, 0, 0, 0, 0, 0, 0)
      ensures ledBrightness == lcdBrightness == systemOnOff == acOnOff == dcOnOff == 0
      ensures writes == []
    {
      peripherals := new PeripheralTable([]);
      isScanning, peripheralMAC, knownPeripherals := false, "", [];
      hasError := false;
      socValue, socExt1Value, socExt2Value, socExt3Value := 0, 0, 0, 0;
      powerValue, voltageValue := 0, 0;
      temperatures := Temperatures(0, 0, 0, 0, 0, 0, 0, 0);
      ledBrightness, lcdBrightness, systemOnOff, acOnOff, dcOnOff := 0, 0, 0, 0, 0;
      writes := [];
    }

    /** `addOrUpdatePeripheral`: `map.set(id, p)` changes the current `Map` object in place,
        and the hook then holds a copy of it (`new Map(...)`); whoever else still holds the
        old object sees the new entry as well. The selected MAC becomes `id`. */
    method AddOrUpdatePeripheral(id: string, p: Peripheral)
      requires Valid()
      modifies this`peripherals, this`peripheralMAC, peripherals
      ensures fresh(peripherals)
      ensures Valid() <== p.id == id
      ensures DistinctKeys(peripherals.entries)
      ensures Get(peripherals.entries, id) == Some(p)
      ensures forall j :: j != id ==> Get(peripherals.entries, j) == Get(old(peripherals.entries), j)
      ensures peripherals.entries == Set(old(peripherals.entries), id, p)
      ensures old(peripherals).entries == peripherals.entries
      ensures peripheralMAC == id
    {
      var updated := Set(peripherals.entries, id, p);
      peripherals.entries := updated;
      peripherals := new PeripheralTable(updated);
      peripheralMAC := id;
    }

    /** `startScan`: marks the scan as running and reloads the known peripherals from storage. */
    method StartScan(store: StorageDevices.KnownPeripheralStore, storageOk: bool)
      requires Valid()
      modifies this`isScanning, this`knownPeripherals
      ensures Valid() && isScanning
      ensures knownPeripherals == if storageOk && store.stored.Some? then StorageDevices.FromList(store.stored.value) else []
    {
      isScanning := true;
      knownPeripherals := store.Load(storageOk);
    }

    /** `handleStopScan`. */
    method HandleStopScan()
      modifies this`isScanning
      ensures !isScanning
    {
      isScanning := false;
    }

    /** `handleDisconnectedPeripheral`: a known entry is marked not connected; an unknown id
        changes nothing. */
    method HandleDisconnectedPeripheral(id: string)
      requires Valid()
      modifies this`peripherals, this`peripheralMAC, peripherals
      ensures Valid()
      ensures old(Get(peripherals.entries, id)).None? ==>
        && peripherals == old(peripherals) && peripherals.entries == old(peripherals.entries)
        && peripheralMAC == old(peripheralMAC)
      ensures old(Get(peripherals.entries, id)).Some? ==>
        && Get(peripherals.entries, id) == Some(old(Get(peripherals.entries, id)).value.(connected := false))
        && fresh(peripherals) && old(peripherals).entries == peripherals.entries
        && peripheralMAC == id
      ensures forall j :: j != id ==> Get(peripherals.entries, j) == Get(old(peripherals.entries), j)
      ensures Keys(peripherals.entries) == Keys(old(peripherals.entries))
    {
      var entry := Get(peripherals.entries, id);
      if entry.Some? {
        GetOwnId(peripherals.entries, id);
        AddOrUpdatePeripheral(entry.value.id, entry.value.(connected := false));
      }
    }

    /** `handleDiscoverPeripheral`: a COR device that is not a known peripheral is added or updated. */
    method HandleDiscoverPeripheral(p: Peripheral)
      requires Valid()
      modifies this`peripherals, this`peripheralMAC, peripherals
      ensures Valid()
      ensures IsCorName(p.name) && !Has(knownPeripherals, p.id) ==>
        && fresh(peripherals) && peripherals.entries == Set(old(peripherals.entries), p.id, p)
        && old(peripherals).entries == peripherals.entries
        && Get(peripherals.entries, p.id) == Some(p)
        && peripheralMAC == p.id
        && (forall j :: j != p.id ==> Get(peripherals.entries, j) == Get(old(peripherals.entries), j))
      ensures !(IsCorName(p.name) && !Has(knownPeripherals, p.id)) ==>
        && peripherals == old(peripherals) && peripherals.entries == old(peripherals.entries)
        && peripheralMAC == old(peripheralMAC)
    {
      if IsCorName(p.name) && !Has(knownPeripherals, p.id) {
        AddOrUpdatePeripheral(p.id, p);
      }
    }

    /** `readCharacteristics`: the four state-of-charge pairs, set one after the other. A
        failed read, or a value too short for the next pair, raises `hasError`; the pairs
        already decoded keep their new values. */
    method ReadSoc(o: ReadOutcome)
      modifies this`socValue, this`socExt1Value, this`socExt2Value, this`socExt3Value, this`hasError
      ensures hasError == (old(hasError) || o.ReadFailed? || |o.data| < 10)
      ensures o.ReadBytes? && |o.data| >= 10 ==>
        SocReading(socValue, socExt1Value, socExt2Value, socExt3Value) == DecodeSoc(o.data).value
      ensures socValue == PairOr(o, SocOffset(0), old(socValue))
      ensures socExt1Value == PairOr(o, SocOffset(1), old(socExt1Value))
      ensures socExt2Value == PairOr(o, SocOffset(2), old(socExt2Value))
      ensures socExt3Value == PairOr(o, SocOffset(3), old(socExt3Value))
    {
      if o.ReadFailed? {
        hasError := true;
        return;
      }
      var buf := o.data;
      var v := Le16At(buf, SocOffset(0));
      if v.None? { hasError := true; return; }
      socValue := v.value;
      v := Le16At(buf, SocOffset(1));
      if v.None? { hasError := true; return; }
      socExt1Value := v.value;
      v := Le16At(buf, SocOffset(2));
      if v.None? { hasError := true; return; }
      socExt2Value := v.value;
      v := Le16At(buf, SocOffset(3));
      if v.None? { hasError := true; return; }
      socExt3Value := v.value;
    }

    /** `readCharacteristics2`: voltage, then the signed power. Failures are only logged:
        `hasError` is not in the frame. */
    method ReadVoltagePower(o: ReadOutcome)
      modifies this`voltageValue, this`powerValue
      ensures o.ReadBytes? && |o.data| >= 6 ==>
        VoltagePower(voltageValue, powerValue) == DecodeVoltagePower(o.data).value
      ensures voltageValue == PairOr(o, 2, old(voltageValue))
      ensures powerValue == if o.ReadBytes? && |o.data| >= 6 then PowerAt(o.data).value else old(powerValue)
    {
      if o.ReadFailed? {
        return;
      }
      var v := Le16At(o.data, 2);
      if v.None? { return; }
      voltageValue := v.value;
      var p := PowerAt(o.data);
      if p.None? { return; }
      powerValue := p.value;
    }

    /** `readCharacteristics3`: eight single bytes, set one after the other, the last one
        re-reading byte 8. Failures are only logged. */
    method ReadTemperatures(o: ReadOutcome)
      modifies this`temperatures
      ensures o.ReadBytes? && |o.data| >= 9 ==> temperatures == DecodeTemperaturesAsWritten(o.data).value
      ensures temperatures == Temperatures(
        ByteOr(o, 2, old(temperatures).minMain), ByteOr(o, 3, old(temperatures).maxMain),
        ByteOr(o, 4, old(temperatures).minExt1), ByteOr(o, 5, old(temperatures).maxExt1),
        ByteOr(o, 6, old(temperatures).minExt2), ByteOr(o, 7, old(temperatures).maxExt2),
        ByteOr(o, 8, old(temperatures).minExt3), ByteOr(o, 8, old(temperatures).maxExt3))
    {
      if o.ReadFailed? {
        return;
      }
      var buf := o.data;
      if |buf| <= 2 { return; }
      temperatures := temperatures.(minMain := buf[2]);
      if |buf| <= 3 { return; }
      temperatures := temperatures.(maxMain := buf[3]);
      if |buf| <= 4 { return; }
      temperatures := temperatures.(minExt1 := buf[4]);
      if |buf| <= 5 { return; }
      temperatures := temperatures.(maxExt1 := buf[5]);
      if |buf| <= 6 { return; }
      temperatures := temperatures.(minExt2 := buf[6]);
      if |buf| <= 7 { return; }
      temperatures := temperatures.(maxExt2 := buf[7]);
      if |buf| <= 8 { return; }
      temperatures := temperatures.(minExt3 := buf[8]);
      temperatures := temperatures.(maxExt3 := buf[8]);
    }

    /** `readLed`: the brightness byte goes through `setLedBrightness`, whose effect writes it
        back to the hub when it changed. Failures are only logged. */
    method ReadLed(o: ReadOutcome)
      modifies this`ledBrightness, this`writes
      ensures ledBrightness == ByteOr(o, 2, old(ledBrightness))
      ensures writes == if ledBrightness != old(ledBrightness) && systemOnOff != 0
                        then old(writes) + [LedWrite(peripheralMAC, ledBrightness)]
                        else old(writes)
    {
      if o.ReadBytes? && |o.data| >= 3 {
        SetLedBrightness(o.data[2]);
      }
    }

    /** `readLcd`: the LCD brightness byte. Failures are only logged. */
    method ReadLcd(o: ReadOutcome)
      modifies this`lcdBrightness
      ensures lcdBrightness == ByteOr(o, 2, old(lcdBrightness))
    {
      var b := if o.ReadBytes? then DecodeBrightness(o.data) else None;
      if b.Some? {
        lcdBrightness := b.value;
      }
    }

    /** `readCurrent`: the three flags of byte 2, all set together once every byte was read. */
    method ReadCurrent(o: ReadOutcome)
      modifies this`systemOnOff, this`acOnOff, this`dcOnOff
      ensures o.ReadBytes? && |o.data| >= 3 ==>
        var s := DecodeStatus(o.data).value;
        systemOnOff == s.systemOn && acOnOff == s.ac && dcOnOff == s.dc
      ensures !(o.ReadBytes? && |o.data| >= 3) ==>
        systemOnOff == old(systemOnOff) && acOnOff == old(acOnOff) && dcOnOff == old(dcOnOff)
      ensures systemOnOff in {0, 1, old(systemOnOff)} && acOnOff in {0, 1, old(acOnOff)}
    {
      var s := if o.ReadBytes? then DecodeStatus(o.data) else None;
      if s.Some? {
        systemOnOff, acOnOff, dcOnOff := s.value.systemOn, s.value.ac, s.value.dc;
      }
    }

    /** `writeCurrentToPeripheral`: always written (a transport error is only logged). */
    method WriteCurrent(on: int, ac: int, dc: int)
      modifies this`writes
      ensures writes == old(writes) + [Write(peripheralMAC, CorControlsChar, CorAcDc, CurrentPayload(SystemTimeTick, on, ac, dc))]
    {
      writes := writes + [Write(peripheralMAC, CorControlsChar, CorAcDc, CurrentPayload(SystemTimeTick, on, ac, dc))];
    }

    /** `writelLEDToPeripheral`: the stored LED brightness, written only while the system is on;
        otherwise nothing happens and no error is raised. */
    method WriteLed()
      modifies this`writes
      ensures writes == if systemOnOff != 0 then old(writes) + [LedWrite(peripheralMAC, ledBrightness)] else old(writes)
    {
      if systemOnOff != 0 {
        writes := writes + [LedWrite(peripheralMAC, ledBrightness)];
      }
    }

    /** `writelLCDToPeripheral`: the given LCD brightness, written only while the system is on. */
    method WriteLcd(value: int)
      modifies this`writes
      ensures writes == if systemOnOff != 0
                        then old(writes) + [Write(peripheralMAC, CorControlsChar, CorLcdChar, BrightnessPayload(SystemTimeTick, value))]
                        else old(writes)
    {
      if systemOnOff != 0 {
        writes := writes + [Write(peripheralMAC, CorControlsChar, CorLcdChar, BrightnessPayload(SystemTimeTick, value))];
      }
    }

    /** `setLedBrightness` together with the effect on `[ledBrightness]`: a new value is
        stored and then written through `writelLEDToPeripheral`. */
    method SetLedBrightness(v: int)
      modifies this`ledBrightness, this`writes
      ensures ledBrightness == v
      ensures writes == if v != old(ledBrightness) && systemOnOff != 0
                        then old(writes) + [LedWrite(peripheralMAC, v)]
                        else old(writes)
    {
      if v != ledBrightness {
        ledBrightness := v;
        WriteLed();
      }
    }

    /** `readCharacteristicsonScreen`: state of charge, voltage/power, LED, LCD and the control
        flags, in that order (the temperature read is not part of the sequence). The LED
        write-back sees the system flag as it was before the flags are read. */
    method ReadAllOnScreen(soc: ReadOutcome, vp: ReadOutcome, led: ReadOutcome, lcd: ReadOutcome, current: ReadOutcome)
      modifies this`socValue, this`socExt1Value, this`socExt2Value, this`socExt3Value, this`hasError,
               this`voltageValue, this`powerValue, this`ledBrightness, this`writes, this`lcdBrightness,
               this`systemOnOff, this`acOnOff, this`dcOnOff
      ensures hasError == (old(hasError) || soc.ReadFailed? || |soc.data| < 10)
      ensures socValue == PairOr(soc, SocOffset(0), old(socValue))
      ensures socExt1Value == PairOr(soc, SocOffset(1), old(socExt1Value))
      ensures socExt2Value == PairOr(soc, SocOffset(2), old(socExt2Value))
      ensures socExt3Value == PairOr(soc, SocOffset(3), old(socExt3Value))
      ensures voltageValue == PairOr(vp, 2, old(voltageValue))
      ensures powerValue == if vp.ReadBytes? && |vp.data| >= 6 then PowerAt(vp.data).value else old(powerValue)
      ensures ledBrightness == ByteOr(led, 2, old(ledBrightness))
      ensures writes == if ledBrightness != old(ledBrightness) && old(systemOnOff) != 0
                        then old(writes) + [LedWrite(peripheralMAC, ledBrightness)]
                        else old(writes)
      ensures lcdBrightness == ByteOr(lcd, 2, old(lcdBrightness))
      ensures current.ReadBytes? && |current.data| >= 3 ==>
        var s := DecodeStatus(current.data).value;
        systemOnOff == s.systemOn && acOnOff == s.ac && dcOnOff == s.dc
      ensures !(current.ReadBytes? && |current.data| >= 3) ==>
        systemOnOff == old(systemOnOff) && acOnOff == old(acOnOff) && dcOnOff == old(dcOnOff)
    {
      ReadSoc(soc);
      ReadVoltagePower(vp);
      ReadLed(led);
      ReadLcd(lcd);
      ReadCurrent(current);
    }
  }

  /** The write `writelLEDToPeripheral` issues for a brightness. */
  function LedWrite(mac: string, brightness: int): Write
  {
    Write(mac, CorControlsChar, CorLedChar, BrightnessPayload(SystemTimeTick, brightness))
  }
}
