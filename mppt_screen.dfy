/** The MPPT screen: the same connection state machine as the COR hub screen (without the
    known-peripherals bookkeeping), the output switch, the mode write, the polls that keep
    the telemetry fresh, and the display conversions. */
module MpptScreen {
  import opened ByteCodec
  import opened PeripheralMap
  import opened MpptCodec
  import opened UseBleMppt
  import opened ScreenConnection

  class MpptScreenState {
    const ble: MpptBleHook
    var connectionStatus: ConnectionStatus
    var selectedItemIndex: Option<int>
    var selectedPeripheral: Option<Peripheral>
    var isConnected: bool

    constructor (ble: MpptBleHook)
      ensures this.ble == ble
      ensures connectionStatus == Connect && selectedItemIndex.None? && selectedPeripheral.None? && !isConnected
    {
      this.ble := ble;
      connectionStatus, selectedItemIndex, selectedPeripheral, isConnected := Connect, None, None, false;
    }

    /** `connectDevice`: as on the COR hub screen, except that nothing is added to the known
        peripherals or saved. */
    method ConnectDevice(p: Peripheral, index: int, outcome: ConnectOutcome)
      requires ble.Valid()
      modifies this`connectionStatus, this`selectedItemIndex, this`selectedPeripheral,
               ble`peripherals, ble`peripheralMPPT
      ensures ble.Valid()
      ensures connectionStatus == StatusAfterConnect(old(connectionStatus), outcome)
      ensures outcome.AdapterOff? ==>
        && selectedItemIndex == old(selectedItemIndex) && selectedPeripheral == old(selectedPeripheral)
        && ble.peripherals == old(ble.peripherals) && ble.peripheralMPPT == old(ble.peripheralMPPT)
      ensures !outcome.AdapterOff? ==> ble.peripheralMPPT == p.id
      ensures !outcome.AdapterOff? ==> forall j :: j != p.id ==> Get(ble.peripherals, j) == Get(old(ble.peripherals), j)
      ensures outcome.ConnectError? ==> Get(ble.peripherals, p.id) == Some(p.(connecting := true))
      ensures outcome.ServicesError? || outcome.ConnectOk? ==>
        Get(ble.peripherals, p.id) == Some(p.(connecting := false, connected := true))
      ensures (outcome.ConnectError? || outcome.ServicesError?) ==>
        if outcome.bluetoothOffMessage
        then selectedItemIndex == Some(index) && selectedPeripheral == Some(p)
        else selectedItemIndex.None? && selectedPeripheral.None?
      ensures outcome.ConnectOk? ==> selectedItemIndex == Some(index) && selectedPeripheral.None?
    {
      if outcome.AdapterOff? {
        return;
      }
      connectionStatus := Connecting;
      selectedItemIndex := Some(index);
      selectedPeripheral := Some(p);
      ble.AddOrUpdatePeripheral(p.id, p.(connecting := true));
      if outcome.ConnectError? {
        FailConnect(outcome.bluetoothOffMessage);
        return;
      }
      ble.AddOrUpdatePeripheral(p.id, p.(connecting := false, connected := true));
      if outcome.ServicesError? {
        FailConnect(outcome.bluetoothOffMessage);
        return;
      }
      selectedPeripheral := None;
      connectionStatus := Connected;
    }

    /** The catch block of `connectDevice`. */
    method FailConnect(bluetoothOffMessage: bool)
      modifies this`connectionStatus, this`selectedItemIndex, this`selectedPeripheral
      ensures bluetoothOffMessage ==>
        && connectionStatus == old(connectionStatus)
        && selectedItemIndex == old(selectedItemIndex) && selectedPeripheral == old(selectedPeripheral)
      ensures !bluetoothOffMessage ==> connectionStatus == Connect && selectedItemIndex.None? && selectedPeripheral.None?
    {
      if !bluetoothOffMessage {
        connectionStatus := Connect;
        selectedPeripheral := None;
        selectedItemIndex := None;
      }
    }

    /** `disconnectDevice`: 'Disconnecting' with the card selected; after a successful
        transport disconnect the entry is marked disconnected, the four readings are reset to
        0, and (one second later) the screen returns to 'Connect' with no selection. A
        throwing disconnect leaves the screen 'Disconnecting'. */
    method DisconnectDevice(p: Peripheral, index: int, ok: bool)
      requires ble.Valid()
      modifies this`connectionStatus, this`selectedItemIndex, this`selectedPeripheral,
               ble`peripherals, ble`peripheralMPPT, ble`solarPower, ble`voltageMppt, ble`tempValue1, ble`tempValue2
      ensures ble.Valid()
      ensures connectionStatus == StatusAfterDisconnect(ok)
      ensures selectedItemIndex == Some(index)
      ensures selectedPeripheral == if ok then None else Some(p)
      ensures ok ==>
        && Get(ble.peripherals, p.id) == Some(p.(connecting := false, connected := false))
        && (forall j :: j != p.id ==> Get(ble.peripherals, j) == Get(old(ble.peripherals), j))
        && ble.peripheralMPPT == p.id
        && ble.solarPower == ble.voltageMppt == ble.tempValue1 == ble.tempValue2 == 0
      ensures !ok ==>
        && ble.peripherals == old(ble.peripherals) && ble.peripheralMPPT == old(ble.peripheralMPPT)
        && ble.solarPower == old(ble.solarPower) && ble.voltageMppt == old(ble.voltageMppt)
        && ble.tempValue1 == old(ble.tempValue1) && ble.tempValue2 == old(ble.tempValue2)
    {
      selectedPeripheral := Some(p);
      selectedItemIndex := Some(index);
      connectionStatus := Disconnecting;
      if !ok {
        return;
      }
      ble.AddOrUpdatePeripheral(p.id, p.(connecting := false, connected := false));
      ble.solarPower, ble.voltageMppt, ble.tempValue1, ble.tempValue2 := 0, 0, 0, 0;
      connectionStatus := Connect;
      selectedPeripheral := None;
    }

    /** `handleDevicePress`: the same dispatch as on the COR hub screen. */
    method HandleDevicePress(p: Peripheral, index: int, outcome: ConnectOutcome, disconnectOk: bool)
      requires ble.Valid()
      modifies this`connectionStatus, this`selectedItemIndex, this`selectedPeripheral,
               ble`peripherals, ble`peripheralMPPT, ble`solarPower, ble`voltageMppt, ble`tempValue1, ble`tempValue2
      ensures ble.Valid()
      ensures connectionStatus == StatusAfterPress(old(connectionStatus), outcome, disconnectOk)
      ensures PressDispatch(old(connectionStatus)) == NoAction ==>
        && selectedItemIndex == old(selectedItemIndex) && selectedPeripheral == old(selectedPeripheral)
        && ble.peripherals == old(ble.peripherals) && ble.peripheralMPPT == old(ble.peripheralMPPT)
        && ble.solarPower == old(ble.solarPower) && ble.voltageMppt == old(ble.voltageMppt)
        && ble.tempValue1 == old(ble.tempValue1) && ble.tempValue2 == old(ble.tempValue2)
    {
      if connectionStatus == Connect {
        ConnectDevice(p, index, outcome);
      } else if connectionStatus == Connected {
        DisconnectDevice(p, index, disconnectOk);
      }
    }

    /** `updateSystemOnOff`: flips the output switch and writes it with the current mode. */
    method UpdateSystemOnOff()
      modifies ble`controlSignal, ble`writes
      ensures ble.controlSignal == Flip(old(ble.controlSignal))
      ensures ble.writes == old(ble.writes) + [ControlWrite(ble.peripheralMPPT, ble.controlSignal, ble.modeSelector)]
    {
      var next := Flip(ble.controlSignal);
      ble.controlSignal := next;
      ble.WriteControl(next, ble.modeSelector);
    }

    /** The effect on `[modeSelector]`, run once the mode may have changed (by the screen or
        by a read of the control block): a mode that differs from `previous` and is not 0 is
        written with the current switch state. */
    method ModeSelectorEffect(previous: int)
      modifies ble`writes
      ensures ble.writes == if ble.modeSelector != previous && ble.modeSelector != 0
        then old(ble.writes) + [ControlWrite(ble.peripheralMPPT, ble.controlSignal, ble.modeSelector)]
        else old(ble.writes)
    {
      if ble.modeSelector != previous && ble.modeSelector != 0 {
        ble.WriteControl(ble.controlSignal, ble.modeSelector);
      }
    }

    /** `setModeSelector` together with the effect on `[modeSelector]`. */
    method SetModeSelector(mode: int)
      modifies ble`modeSelector, ble`writes
      ensures ble.modeSelector == mode
      ensures ble.writes == if mode != old(ble.modeSelector) && mode != 0
        then old(ble.writes) + [ControlWrite(ble.peripheralMPPT, ble.controlSignal, mode)]
        else old(ble.writes)
    {
      var previous := ble.modeSelector;
      ble.modeSelector := mode;
      ModeSelectorEffect(previous);
    }

    /** One tick of the 2-second control poll: the control block is read only while the
        screen is 'Connected'; a mode the read changes to a non-zero value is written back
        with the switch state just read. */
    method ControlPollTick(control: ReadOutcome)
      modifies ble`controlSignal, ble`modeSelector, ble`hasErrorMPPT, ble`writes
      ensures connectionStatus != Connected ==>
        && ble.controlSignal == old(ble.controlSignal) && ble.modeSelector == old(ble.modeSelector)
        && ble.hasErrorMPPT == old(ble.hasErrorMPPT) && ble.writes == old(ble.writes)
      ensures connectionStatus == Connected ==>
        && ble.controlSignal == ByteOr(control, 2, old(ble.controlSignal))
        && ble.modeSelector == ByteOr(control, 3, old(ble.modeSelector))
        && ble.hasErrorMPPT == (old(ble.hasErrorMPPT) || control.ReadFailed? || |control.data| < 4)
        && ble.writes == if ble.modeSelector != old(ble.modeSelector) && ble.modeSelector != 0
             then old(ble.writes) + [ControlWrite(ble.peripheralMPPT, ble.controlSignal, ble.modeSelector)]
             else old(ble.writes)
    {
      if connectionStatus == Connected {
        var previous := ble.modeSelector;
        ble.ReadControl(control);
        ModeSelectorEffect(previous);
      }
    }

    /** One tick of the 2-second telemetry poll: temperatures and control are read only
        while the output switch is on, and a mode changed by the read is written back. */
    method TelemetryPollTick(temp: ReadOutcome, control: ReadOutcome)
      modifies ble`tempValue1, ble`tempValue2, ble`controlSignal, ble`modeSelector, ble`hasErrorMPPT, ble`writes
      ensures old(ble.controlSignal) == 0 ==>
        && ble.tempValue1 == old(ble.tempValue1) && ble.tempValue2 == old(ble.tempValue2)
        && ble.controlSignal == 0 && ble.modeSelector == old(ble.modeSelector)
        && ble.hasErrorMPPT == old(ble.hasErrorMPPT) && ble.writes == old(ble.writes)
      ensures old(ble.controlSignal) != 0 ==>
        && ble.tempValue1 == PairOr(temp, 2, old(ble.tempValue1))
        && ble.tempValue2 == (if temp.ReadBytes? && |temp.data| >= 6 then Temp2AsWritten(temp.data) else old(ble.tempValue2))
        && ble.controlSignal == ByteOr(control, 2, old(ble.controlSignal))
        && ble.modeSelector == ByteOr(control, 3, old(ble.modeSelector))
        && ble.hasErrorMPPT == (old(ble.hasErrorMPPT) || temp.ReadFailed? || |temp.data| < 6
                                || control.ReadFailed? || |control.data| < 4)
        && ble.writes == if ble.modeSelector != old(ble.modeSelector) && ble.modeSelector != 0
             then old(ble.writes) + [ControlWrite(ble.peripheralMPPT, ble.controlSignal, ble.modeSelector)]
             else old(ble.writes)
    {
      if ble.controlSignal != 0 {
        var previous := ble.modeSelector;
        ble.ReadOnScreen(temp, control);
        ModeSelectorEffect(previous);
      }
    }

    /** One tick of the 29-second power poll: power and voltage are read only while the
        output switch is on. */
    method PowerPollTick(o: ReadOutcome)
      modifies ble`solarPower, ble`voltageMppt, ble`hasErrorMPPT
      ensures ble.controlSignal == 0 ==>
        ble.solarPower == old(ble.solarPower) && ble.voltageMppt == old(ble.voltageMppt)
        && ble.hasErrorMPPT == old(ble.hasErrorMPPT)
      ensures ble.controlSignal != 0 ==>
        && ble.solarPower == PairOr(o, 2, old(ble.solarPower))
        && ble.voltageMppt == PairOr(o, 4, old(ble.voltageMppt))
        && ble.hasErrorMPPT == (old(ble.hasErrorMPPT) || o.ReadFailed? || |o.data| < 6)
    {
      if ble.controlSignal != 0 {
        ble.ReadPowerVoltage(o);
      }
    }

    /** The effect on `[controlSignal]`: a power read on every change of the switch, whether
        it turned on or off. */
    method ControlSignalChanged(o: ReadOutcome)
      modifies ble`solarPower, ble`voltageMppt, ble`hasErrorMPPT
      ensures ble.solarPower == PairOr(o, 2, old(ble.solarPower))
      ensures ble.voltageMppt == PairOr(o, 4, old(ble.voltageMppt))
      ensures ble.hasErrorMPPT == (old(ble.hasErrorMPPT) || o.ReadFailed? || |o.data| < 6)
    {
      ble.ReadPowerVoltage(o);
    }

    /** The effect on `[connectionStatus, solarPower]`. */
    method SyncIsConnected()
      modifies this`isConnected
      ensures isConnected <==> IsConnectedRule(connectionStatus, ble.solarPower)
    {
      isConnected := connectionStatus == Connected && ble.solarPower == 0;
    }
  }

  /** The screen counts as connected while the controller is 'Connected' and reports no power. */
  predicate IsConnectedRule(s: ConnectionStatus, solarPower: int)
  {
    s == Connected && solarPower == 0
  }

  /** `voltage2number`: the raw reading in tenths of a volt. */
  function VoltageDisplay(raw: int): (v: real)
    ensures v * 10.0 == raw as real
  {
    raw as real / 10.0
  }

  /** `temp1Fixed` / `temp2Fixed`: raw 0 means no reading and shows 0; any other reading is
      in tenths of a degree with an offset of 40. */
  function TemperatureDisplay(raw: int): (t: real)
    ensures raw == 0 ==> t == 0.0
    ensures raw != 0 ==> (t + 40.0) * 10.0 == raw as real
  {
    if raw == 0 then 0.0 else raw as real / 10.0 - 40.0
  }

  /** Distinct non-zero readings show distinct temperatures. */
  lemma {:induction false} TemperatureDisplayInjective(a: int, b: int)
    requires a != 0 && b != 0 && TemperatureDisplay(a) == TemperatureDisplay(b)
    ensures a == b
  {
    assert (TemperatureDisplay(a) + 40.0) * 10.0 == a as real;
    assert (TemperatureDisplay(b) + 40.0) * 10.0 == b as real;
  }

  /** A sensor reporting exactly 0 °C (raw 400) shows the same value as a missing reading. */
  lemma {:induction false} ZeroDegreesLooksLikeNoReading()
    ensures TemperatureDisplay(400) == TemperatureDisplay(0) == 0.0
  {
    assert 400 as real / 10.0 == 40.0;
  }
}
