/** The characteristic layouts of the MPPT solar controller, as the `useBleMPPT` hook decodes
    and encodes them. As on the COR hub, readings come in low byte first after a two-byte
    device tick, and write payloads start with the app's tick, high byte first. */
module MpptCodec {
  import opened ByteCodec

  /** `systemTimeTick` starts at 1234 and is never set again. */
  const MpptTick: int := 1234

  /** Power/voltage block (`MPPT_POWER_VOLTAGE_CHAR`). */
  datatype PowerVoltage = PowerVoltage(power: int, voltage: int)

  /** Temperature block (`MPPT_TEMP`): two sensors. */
  datatype MpptTemperatures = MpptTemperatures(temp1: int, temp2: int)

  /** On/off block (`MPPT_ON_OFF_CHAR`): the output switch and the charging mode, raw bytes. */
  datatype Control = Control(controlSignal: int, modeSelector: int)

  /** `readCharacteristics`: power at bytes 2-3, voltage at bytes 4-5, both unsigned. */
  function DecodePowerVoltage(buf: seq<Byte>): (r: Option<PowerVoltage>)
    ensures r.Some? <==> |buf| >= 6
    ensures r.Some? ==> 0 <= r.value.power < 0x1_0000 && 0 <= r.value.voltage < 0x1_0000
    ensures r.Some? ==>
      && r.value.power % 256 == buf[2] && r.value.power / 256 == buf[3]
      && r.value.voltage % 256 == buf[4] && r.value.voltage / 256 == buf[5]
  {
    if |buf| < 6 then None
    else Some(PowerVoltage(Le16At(buf, 2).value, Le16At(buf, 4).value))
  }

  /** The second temperature as `readCharacteristics2` assembles it: the high byte comes from
      the reversed first pair (byte 3), the low byte from the second pair (byte 4). Byte 5 is
      read, so it must exist, but it is never used. */
  function Temp2AsWritten(buf: seq<Byte>): (r: int)
    requires |buf| >= 6
    ensures 0 <= r < 0x1_0000
    ensures r / 256 == buf[3] && r % 256 == buf[4]
  {
    buf[3] as int * 256 + buf[4] as int
  }

  /** `readCharacteristics2` as written. */
  function DecodeTemperaturesAsWritten(buf: seq<Byte>): (r: Option<MpptTemperatures>)
    ensures r.Some? <==> |buf| >= 6
    ensures r.Some? ==> r.value.temp1 / 256 == r.value.temp2 / 256
  {
    if |buf| < 6 then None
    else Some(MpptTemperatures(Le16At(buf, 2).value, Temp2AsWritten(buf)))
  }

  /** The temperature block as laid out: two little-endian pairs at bytes 2-3 and 4-5 (as the
      background routine of the MPPT component decodes it). */
  function DecodeTemperatures(buf: seq<Byte>): (r: Option<MpptTemperatures>)
    ensures r.Some? <==> |buf| >= 6
    ensures r.Some? ==>
      && 0 <= r.value.temp1 < 0x1_0000 && 0 <= r.value.temp2 < 0x1_0000
      && r.value.temp1 % 256 == buf[2] && r.value.temp1 / 256 == buf[3]
      && r.value.temp2 % 256 == buf[4] && r.value.temp2 / 256 == buf[5]
  {
    if |buf| < 6 then None
    else Some(MpptTemperatures(Le16At(buf, 2).value, Le16At(buf, 4).value))
  }

  /** `readCharacteristics3`: byte 2 and byte 3, unmasked. */
  function DecodeControl(buf: seq<Byte>): (r: Option<Control>)
    ensures r.Some? <==> |buf| >= 4
    ensures r.Some? ==> r.value.controlSignal == buf[2] && r.value.modeSelector == buf[3]
  {
    if |buf| < 4 then None else Some(Control(buf[2], buf[3]))
  }

  /** `writeControl`'s payload: tick header, then both arguments truncated by `Uint8Array`. */
  function ControlPayload(tick: int, controlSignal: int, modeSelector: int): (p: seq<Byte>)
    ensures |p| == 4
    ensures p[2] == controlSignal % 256 && p[3] == modeSelector % 256
  {
    TickHeader(tick) + [ToUint8(controlSignal), ToUint8(modeSelector)]
  }

  /** `writeReset`'s payload: tick header, then the fixed bytes 1 and 2. */
  function ResetPayload(tick: int): (p: seq<Byte>)
    ensures |p| == 4 && p[2..] == [1, 2]
  {
    TickHeader(tick) + [1, 2]
  }

  // Device-side layouts: what a controller sends for given readings.

  function EncodePowerVoltage(tick: int, r: PowerVoltage): seq<Byte>
    requires 0 <= r.power < 0x1_0000 && 0 <= r.voltage < 0x1_0000
  {
    TickHeader(tick) + Le16Bytes(r.power) + Le16Bytes(r.voltage)
  }

  function EncodeTemperatures(tick: int, t: MpptTemperatures): seq<Byte>
    requires 0 <= t.temp1 < 0x1_0000 && 0 <= t.temp2 < 0x1_0000
  {
    TickHeader(tick) + Le16Bytes(t.temp1) + Le16Bytes(t.temp2)
  }

  /** Every power/voltage reading a controller can send decodes to itself. */
  lemma {:induction false} PowerVoltageRoundTrip(tick: int, r: PowerVoltage)
    requires 0 <= r.power < 0x1_0000 && 0 <= r.voltage < 0x1_0000
    ensures DecodePowerVoltage(EncodePowerVoltage(tick, r)) == Some(r)
  {
    Le16RoundTrip(TickHeader(tick), r.power, Le16Bytes(r.voltage));
    Le16RoundTrip(TickHeader(tick) + Le16Bytes(r.power), r.voltage, []);
    assert EncodePowerVoltage(tick, r) == TickHeader(tick) + Le16Bytes(r.power) + Le16Bytes(r.voltage) + [];
  }

  /** The corrected temperature decoder inverts the controller's layout. */
  lemma {:induction false} TemperaturesRoundTrip(tick: int, t: MpptTemperatures)
    requires 0 <= t.temp1 < 0x1_0000 && 0 <= t.temp2 < 0x1_0000
    ensures DecodeTemperatures(EncodeTemperatures(tick, t)) == Some(t)
  {
    Le16RoundTrip(TickHeader(tick), t.temp1, Le16Bytes(t.temp2));
    Le16RoundTrip(TickHeader(tick) + Le16Bytes(t.temp1), t.temp2, []);
    assert EncodeTemperatures(tick, t) == TickHeader(tick) + Le16Bytes(t.temp1) + Le16Bytes(t.temp2) + [];
  }

  /** As written, the second temperature comes back right exactly when both sensors share
      their high byte; any other reading is displayed wrong. */
  lemma {:induction false} TemperaturesAsWrittenRightOnlyOnSharedHighByte(tick: int, t: MpptTemperatures)
    requires 0 <= t.temp1 < 0x1_0000 && 0 <= t.temp2 < 0x1_0000
    ensures DecodeTemperaturesAsWritten(EncodeTemperatures(tick, t)) == Some(t) <==> t.temp1 / 256 == t.temp2 / 256
  {
    var buf := EncodeTemperatures(tick, t);
    Le16RoundTrip(TickHeader(tick), t.temp1, Le16Bytes(t.temp2));
    assert buf[3] == t.temp1 / 256 && buf[4] == t.temp2 % 256;
  }

  /** A concrete reading: 25.0 °C and 65.0 °C (raw 650 and 1050) on the two sensors; the
      second one comes back as raw 538. */
  lemma TemperaturesAsWrittenExample()
    ensures EncodeTemperatures(MpptTick, MpptTemperatures(650, 1050)) == [0x04, 0xD2, 0x8A, 0x02, 0x1A, 0x04]
    ensures DecodeTemperaturesAsWritten([0x04, 0xD2, 0x8A, 0x02, 0x1A, 0x04]) == Some(MpptTemperatures(650, 538))
    ensures DecodeTemperatures([0x04, 0xD2, 0x8A, 0x02, 0x1A, 0x04]) == Some(MpptTemperatures(650, 1050))
  {
  }

  /** On one and the same value, the as-written and the corrected decoders agree exactly when
      bytes 3 and 5 are equal: the screen and the background task then store different second
      temperatures for every other reading. */
  lemma {:induction false} AsWrittenAgreesOnlyOnEqualHighBytes(buf: seq<Byte>)
    requires |buf| >= 6
    ensures DecodeTemperaturesAsWritten(buf) == DecodeTemperatures(buf) <==> buf[3] == buf[5]
  {
    var w := Temp2AsWritten(buf);
    var c := Le16At(buf, 4).value;
    if buf[3] != buf[5] {
      assert w / 256 != c / 256;
    }
  }

  /** Reading back a control write gives both arguments modulo 256. */
  lemma {:induction false} ControlRoundTrip(tick: int, controlSignal: int, modeSelector: int)
    ensures DecodeControl(ControlPayload(tick, controlSignal, modeSelector))
            == Some(Control(controlSignal % 256, modeSelector % 256))
  {
  }

  /** The tick never changes, so every reset payload is 04 D2 01 02. */
  lemma ResetPayloadIsConstant()
    ensures ResetPayload(MpptTick) == [0x04, 0xD2, 1, 2]
  {
  }
}
