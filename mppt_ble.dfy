/** The `useBleMPPT` hook: the MPPT controller's telemetry, its control state and the
    discovered-peripheral map. As for the COR hook, each state variable is a field, reads are
    given as outcomes, and issued writes are appended to `writes`. */
module UseBleMppt {
  import opened ByteCodec
  import opened PeripheralMap
  import opened MpptCodec

  const MpptUuid: string := "E909900B-38D7-0000-8FE1-2A48A02B36E6"
  const MpptOnOffUuid: string := "E90A930B-38D7-0000-8FE1-2A48A02B36E6"
  const MpptOnOffChar: string := "E91A930B-38D7-0000-8FE1-2A48A02B36E6"
  const MpptPowerVoltageChar: string := "E919900B-38D7-0000-8FE1-2A48A02B36E6"
  const MpptTemp: string := "E929900B-38D7-0000-8FE1-2A48A02B36E6"
  const MpptReset: string := "E92A930B-38D7-0000-8FE1-2A48A02B36E6"

  /** The discovery filter: a non-empty name containing "MPPT". */
  predicate IsMpptName(name: Option<string>)
  {
    name.Some? && name.value != "" && Contains(name.value, "MPPT")
  }

  class MpptBleHook {
    var isScanning: bool
    var peripherals: Entries
    var peripheralMPPT: string
    var hasErrorMPPT: bool
    var solarPower: int
    var voltageMppt: int
    var tempValue1: int
    var tempValue2: int
    var controlSignal: int
    var modeSelector: int
    var writes: seq<Write>

    /** The map is a genuine `Map` keyed by its peripherals' ids. */
    ghost predicate Valid()
      reads this
    {
      DistinctKeys(peripherals) && WellKeyed(peripherals)
    }

    constructor ()
      ensures Valid()
      ensures !isScanning && peripherals == [] && peripheralMPPT == "" && !hasErrorMPPT
      ensures solarPower == voltageMppt == tempValue1 == tempValue2 == 0
      ensures controlSignal == modeSelector == 0 && writes == []
    {
      isScanning, peripherals, peripheralMPPT, hasErrorMPPT := false, [], "", false;
      solarPower, voltageMppt, tempValue1, tempValue2 := 0, 0, 0, 0;
      controlSignal, modeSelector, writes := 0, 0, [];
    }

    /** `addOrUpdatePeripheral`: `map.set(id, p)`, and the selected controller becomes `id`. */
    method AddOrUpdatePeripheral(id: string, p: Peripheral)
      requires Valid()
      modifies this`peripherals, this`peripheralMPPT
      ensures Valid() <== p.id == id
      ensures DistinctKeys(peripherals)
      ensures Get(peripherals, id) == Some(p)
      ensures forall j :: j != id ==> Get(peripherals, j) == Get(old(peripherals), j)
      ensures peripherals == Set(old(peripherals), id, p)
      ensures peripheralMPPT == id
    {
      peripherals := Set(peripherals, id, p);
      peripheralMPPT := id;
    }

    /** `startScan`: ignored while a scan runs; otherwise the map is emptied and the scan starts. */
    method StartScan()
      requires Valid()
      modifies this`isScanning, this`peripherals
      ensures Valid() && isScanning
      ensures peripherals == if old(isScanning) then old(peripherals) else []
    {
      if !isScanning {
        peripherals := [];
        isScanning := true;
      }
    }

    /** `handleStopScan`. */
    method HandleStopScan()
      modifies this`isScanning
      ensures !isScanning
    {
      isScanning := false;
    }

    /** `handleDisconnectedPeripheral`: a present entry is marked not connected; an unknown id
        changes nothing. */
    method HandleDisconnectedPeripheral(id: string)
      requires Valid()
      modifies this`peripherals, this`peripheralMPPT
      ensures Valid()
      ensures old(Get(peripherals, id)).None? ==> peripherals == old(peripherals) && peripheralMPPT == old(peripheralMPPT)
      ensures old(Get(peripherals, id)).Some? ==>
        && Get(peripherals, id) == Some(old(Get(peripherals, id)).value.(connected := false))
        && peripheralMPPT == id
      ensures forall j :: j != id ==> Get(peripherals, j) == Get(old(peripherals), j)
      ensures Keys(peripherals) == Keys(old(peripherals))
    {
      var entry := Get(peripherals, id);
      if entry.Some? {
        GetOwnId(peripherals, id);
        AddOrUpdatePeripheral(entry.value.id, entry.value.(connected := false));
      }
    }

    /** `handleDiscoverPeripheral`: a device whose name contains "MPPT" is added or updated. */
    method HandleDiscoverPeripheral(p: Peripheral)
      requires Valid()
      modifies this`peripherals, this`peripheralMPPT
      ensures Valid()
      ensures IsMpptName(p.name) ==>
        && Get(peripherals, p.id) == Some(p)
        && peripheralMPPT == p.id
        && (forall j :: j != p.id ==> Get(peripherals, j) == Get(old(peripherals), j))
      ensures !IsMpptName(p.name) ==> peripherals == old(peripherals) && peripheralMPPT == old(peripheralMPPT)
    {
      if IsMpptName(p.name) {
        AddOrUpdatePeripheral(p.id, p);
      }
    }

    /** `readCharacteristics`: power, then voltage. Any failure, including a value too short
        for the next pair, raises `hasErrorMPPT`; the power already set stays set. */
    method ReadPowerVoltage(o: ReadOutcome)
      modifies this`solarPower, this`voltageMppt, this`hasErrorMPPT
      ensures hasErrorMPPT == (old(hasErrorMPPT) || o.ReadFailed? || |o.data| < 6)
      ensures o.ReadBytes? && |o.data| >= 6 ==>
        PowerVoltage(solarPower, voltageMppt) == DecodePowerVoltage(o.data).value
      ensures solarPower == PairOr(o, 2, old(solarPower))
      ensures voltageMppt == PairOr(o, 4, old(voltageMppt))
    {
      if o.ReadFailed? {
        hasErrorMPPT := true;
        return;
      }
      var v := Le16At(o.data, 2);
      if v.None? { hasErrorMPPT := true; return; }
      solarPower := v.value;
      v := Le16At(o.data, 4);
      if v.None? { hasErrorMPPT := true; return; }
      voltageMppt := v.value;
    }

    /** `readCharacteristics2` as written: temp1, then temp2 assembled with temp1's high byte.
        Any failure raises `hasErrorMPPT`. */
    method ReadTemperatures(o: ReadOutcome)
      modifies this`tempValue1, this`tempValue2, this`hasErrorMPPT
      ensures hasErrorMPPT == (old(hasErrorMPPT) || o.ReadFailed? || |o.data| < 6)
      ensures o.ReadBytes? && |o.data| >= 6 ==>
        MpptTemperatures(tempValue1, tempValue2) == DecodeTemperaturesAsWritten(o.data).value
      ensures tempValue1 == PairOr(o, 2, old(tempValue1))
      ensures tempValue2 == if o.ReadBytes? && |o.data| >= 6 then Temp2AsWritten(o.data) else old(tempValue2)
    {
      if o.ReadFailed? {
        hasErrorMPPT := true;
        return;
      }
      var buf := o.data;
      var t1 := Le16At(buf, 2);
      if t1.None? { hasErrorMPPT := true; return; }
      tempValue1 := t1.value;
      if |buf| < 6 { hasErrorMPPT := true; return; }
      tempValue2 := Temp2AsWritten(buf);
    }

    /** `readCharacteristics3`: the switch byte, then the mode byte. Any failure raises
        `hasErrorMPPT`. */
    method ReadControl(o: ReadOutcome)
      modifies this`controlSignal, this`modeSelector, this`hasErrorMPPT
      ensures hasErrorMPPT == (old(hasErrorMPPT) || o.ReadFailed? || |o.data| < 4)
      ensures o.ReadBytes? && |o.data| >= 4 ==>
        Control(controlSignal, modeSelector) == DecodeControl(o.data).value
      ensures controlSignal == ByteOr(o, 2, old(controlSignal))
      ensures modeSelector == ByteOr(o, 3, old(modeSelector))
    {
      if o.ReadFailed? {
        hasErrorMPPT := true;
        return;
      }
      var buf := o.data;
      if |buf| < 3 { hasErrorMPPT := true; return; }
      controlSignal := buf[2];
      if |buf| < 4 { hasErrorMPPT := true; return; }
      modeSelector := buf[3];
    }

    /** `writeControl`: always issued (a transport error is only logged). */
    method WriteControl(cs: int, mode: int)
      modifies this`writes
      ensures writes == old(writes) + [ControlWrite(peripheralMPPT, cs, mode)]
    {
      writes := writes + [ControlWrite(peripheralMPPT, cs, mode)];
    }

    /** `writeReset`: the fixed reset command on the reset characteristic. */
    method WriteReset()
      modifies this`writes
      ensures writes == old(writes) + [Write(peripheralMPPT, MpptOnOffUuid, MpptReset, ResetPayload(MpptTick))]
    {
      writes := writes + [Write(peripheralMPPT, MpptOnOffUuid, MpptReset, ResetPayload(MpptTick))];
    }

    /** `readCharacteristicsonScreenMPPT`: temperatures, then the control block. */
    method ReadOnScreen(temp: ReadOutcome, control: ReadOutcome)
      modifies this`tempValue1, this`tempValue2, this`controlSignal, this`modeSelector, this`hasErrorMPPT
      ensures hasErrorMPPT == (old(hasErrorMPPT) || temp.ReadFailed? || |temp.data| < 6
                               || control.ReadFailed? || |control.data| < 4)
      ensures tempValue1 == PairOr(temp, 2, old(tempValue1))
      ensures tempValue2 == if temp.ReadBytes? && |temp.data| >= 6 then Temp2AsWritten(temp.data) else old(tempValue2)
      ensures controlSignal == ByteOr(control, 2, old(controlSignal))
      ensures modeSelector == ByteOr(control, 3, old(modeSelector))
    {
      ReadTemperatures(temp);
      ReadControl(control);
    }
  }

  /** The write `writeControl` issues for a switch state and a mode. */
  function ControlWrite(mac: string, cs: int, mode: int): Write
  {
    Write(mac, MpptOnOffUuid, MpptOnOffChar, ControlPayload(MpptTick, cs, mode))
  }
}
