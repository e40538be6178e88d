/** The characteristic layouts of the COR hub, as the `useBle` hook decodes and encodes them.
    Every value starts with a two-byte device tick; the fields after it are decoded at fixed
    offsets. Readings come in low byte first; write payloads carry the app's tick header high
    byte first. */
module CorCodec {
  import opened ByteCodec

  /** `systemTimeTick`, `systemTimeTick2` and `systemTimeTick3` start at 1234 and the hook never
      calls their setters, so every write header carries this value. */
  const SystemTimeTick: int := 1234

  /** State-of-charge block (`COR_CHARACTERISTIC_T_SOC`): main battery and three externals. */
  datatype SocReading = SocReading(soc: int, ext1: int, ext2: int, ext3: int)

  /** Voltage/power block (`COR_CHARACTERISTIC_V_P`). */
  datatype VoltagePower = VoltagePower(voltage: int, power: int)

  /** Temperature block (`COR_CHARACTERISTIC_TEMP`): a minimum and a maximum per battery. */
  datatype Temperatures = Temperatures(
    minMain: int, maxMain: int,
    minExt1: int, maxExt1: int,
    minExt2: int, maxExt2: int,
    minExt3: int, maxExt3: int)

  /** AC/DC control block (`COR_AC_DC`): the device tick and the three flags of byte 2. */
  datatype Status = Status(tick: int, systemOn: int, ac: int, dc: int)

  /** Offset of the k-th pair of the state-of-charge block (main, ext1, ext2, ext3). */
  function SocOffset(k: nat): nat
  {
    2 + 2 * k
  }

  /** `readCharacteristics`: four little-endian pairs at bytes 2..9. */
  function DecodeSoc(buf: seq<Byte>): (r: Option<SocReading>)
    ensures r.Some? <==> |buf| >= 10
    ensures r.Some? ==>
      && 0 <= r.value.soc < 0x1_0000 && 0 <= r.value.ext1 < 0x1_0000
      && 0 <= r.value.ext2 < 0x1_0000 && 0 <= r.value.ext3 < 0x1_0000
    ensures r.Some? ==>
      && r.value.soc % 256 == buf[2] && r.value.soc / 256 == buf[3]
      && r.value.ext1 % 256 == buf[4] && r.value.ext1 / 256 == buf[5]
      && r.value.ext2 % 256 == buf[6] && r.value.ext2 / 256 == buf[7]
      && r.value.ext3 % 256 == buf[8] && r.value.ext3 / 256 == buf[9]
  {
    if |buf| < 10 then None
    else Some(SocReading(
      Le16At(buf, SocOffset(0)).value, Le16At(buf, SocOffset(1)).value,
      Le16At(buf, SocOffset(2)).value, Le16At(buf, SocOffset(3)).value))
  }

  /** The power field of `readCharacteristics2`: the pair at bytes 4 and 5, sign-extended. */
  function PowerAt(buf: seq<Byte>): (r: Option<int>)
    ensures r.Some? <==> |buf| >= 6
    ensures r.Some? ==> -0x8000 <= r.value < 0x8000
    ensures r.Some? ==> (r.value - (buf[5] as int * 256 + buf[4] as int)) % 0x1_0000 == 0
    ensures r.Some? ==> (r.value < 0 <==> buf[5] >= 128)
  {
    if |buf| < 6 then None else Some(Signed16(buf[5], buf[4]))
  }

  /** `readCharacteristics2`: unsigned voltage at bytes 2-3, signed power at bytes 4-5. */
  function DecodeVoltagePower(buf: seq<Byte>): (r: Option<VoltagePower>)
    ensures r.Some? <==> |buf| >= 6
    ensures r.Some? ==> 0 <= r.value.voltage < 0x1_0000 && -0x8000 <= r.value.power < 0x8000
  {
    if |buf| < 6 then None
    else Some(VoltagePower(Le16At(buf, 2).value, PowerAt(buf).value))
  }

  /** Byte offsets that `readCharacteristics3` reads, in order: the last one repeats byte 8. */
  const TempOffsetsAsWritten: seq<nat> := [2, 3, 4, 5, 6, 7, 8, 8]

  /** The offsets the layout calls for: one byte per reading, bytes 2..9. */
  const TempOffsets: seq<nat> := [2, 3, 4, 5, 6, 7, 8, 9]

  function TemperaturesAt(buf: seq<Byte>, offs: seq<nat>): Temperatures
    requires |offs| == 8 && forall i :: 0 <= i < 8 ==> offs[i] < |buf|
  {
    Temperatures(buf[offs[0]], buf[offs[1]], buf[offs[2]], buf[offs[3]],
                 buf[offs[4]], buf[offs[5]], buf[offs[6]], buf[offs[7]])
  }

  /** `readCharacteristics3` as written: `maxTempExt3` re-reads byte 8, so a nine-byte value
      decodes and the third external battery's maximum always equals its minimum. */
  function DecodeTemperaturesAsWritten(buf: seq<Byte>): (r: Option<Temperatures>)
    ensures r.Some? <==> |buf| >= 9
    ensures r.Some? ==> r.value.maxExt3 == r.value.minExt3 == buf[8]
  {
    if |buf| < 9 then None else Some(TemperaturesAt(buf, TempOffsetsAsWritten))
  }

  /** The temperature block as laid out: the eight bytes 2..9 in order. */
  function DecodeTemperatures(buf: seq<Byte>): (r: Option<Temperatures>)
    ensures r.Some? <==> |buf| >= 10
    ensures r.Some? ==> r.value.minExt3 == buf[8] && r.value.maxExt3 == buf[9]
  {
    if |buf| < 10 then None else Some(TemperaturesAt(buf, TempOffsets))
  }

  /** `readCurrent`: tick at bytes 0-1 (big-endian), flags from bits 0, 1 and 2 of byte 2. */
  function DecodeStatus(buf: seq<Byte>): (r: Option<Status>)
    ensures r.Some? <==> |buf| >= 3
    ensures r.Some? ==> 0 <= r.value.tick < 0x1_0000
    ensures r.Some? ==> r.value.systemOn in {0, 1} && r.value.ac in {0, 1} && r.value.dc in {0, 1}
    ensures r.Some? ==> buf[2] % 8 == r.value.systemOn + 2 * r.value.ac + 4 * r.value.dc
  {
    if |buf| < 3 then None
    else
      LowBits(buf[2]);
      Some(Status(Be16At(buf, 0).value, Bit(buf[2], 0), Bit(buf[2], 1), Bit(buf[2], 2)))
  }

  /** `readLed` / `readLcd`: the brightness byte at offset 2. */
  function DecodeBrightness(buf: seq<Byte>): (r: Option<Byte>)
    ensures r.Some? <==> |buf| >= 3
    ensures r.Some? ==> r.value == buf[2]
  {
    ByteAt(buf, 2)
  }

  /** `(on & 0x01) | ((ac & 0x01) << 1) | ((dc & 0x01) << 2)`: only the low bit of each argument
      survives, so the byte is at most 7. */
  function ControlByte(on: int, ac: int, dc: int): (b: Byte)
    ensures b <= 7
    ensures Bit(b, 0) == on % 2 && Bit(b, 1) == ac % 2 && Bit(b, 2) == dc % 2
  {
    on % 2 + 2 * (ac % 2) + 4 * (dc % 2)
  }

  /** `writeCurrentToPeripheral`'s payload: tick header, then the control byte. */
  function CurrentPayload(tick: int, on: int, ac: int, dc: int): (p: seq<Byte>)
    ensures |p| == 3
  {
    TickHeader(tick) + [ControlByte(on, ac, dc)]
  }

  /** `writelLEDToPeripheral` / `writelLCDToPeripheral`'s payload: tick header, then the
      brightness truncated by `Uint8Array`. */
  function BrightnessPayload(tick: int, value: int): (p: seq<Byte>)
    ensures |p| == 3
  {
    TickHeader(tick) + [ToUint8(value)]
  }

  // Device-side layouts: what a hub sends for given readings. They are the inverses the
  // decoders are checked against.

  predicate InWord(v: int) { 0 <= v < 0x1_0000 }

  function EncodeSoc(tick: int, r: SocReading): seq<Byte>
    requires InWord(r.soc) && InWord(r.ext1) && InWord(r.ext2) && InWord(r.ext3)
  {
    TickHeader(tick) + Le16Bytes(r.soc) + Le16Bytes(r.ext1) + Le16Bytes(r.ext2) + Le16Bytes(r.ext3)
  }

  function EncodeVoltagePower(tick: int, r: VoltagePower): seq<Byte>
    requires InWord(r.voltage) && -0x8000 <= r.power < 0x8000
  {
    TickHeader(tick) + Le16Bytes(r.voltage) + Le16Bytes(TwosComplement16(r.power))
  }

  predicate TemperatureBytes(t: Temperatures)
  {
    && 0 <= t.minMain < 256 && 0 <= t.maxMain < 256
    && 0 <= t.minExt1 < 256 && 0 <= t.maxExt1 < 256
    && 0 <= t.minExt2 < 256 && 0 <= t.maxExt2 < 256
    && 0 <= t.minExt3 < 256 && 0 <= t.maxExt3 < 256
  }

  function EncodeTemperatures(tick: int, t: Temperatures): seq<Byte>
    requires TemperatureBytes(t)
  {
    TickHeader(tick) + [t.minMain, t.maxMain, t.minExt1, t.maxExt1,
                        t.minExt2, t.maxExt2, t.minExt3, t.maxExt3]
  }

  /** Every state-of-charge reading a hub can send decodes to itself. */
  lemma SocRoundTrip(tick: int, r: SocReading)
    requires InWord(r.soc) && InWord(r.ext1) && InWord(r.ext2) && InWord(r.ext3)
    ensures DecodeSoc(EncodeSoc(tick, r)) == Some(r)
  {
    var h := TickHeader(tick);
    var buf := EncodeSoc(tick, r);
    Le16RoundTrip(h, r.soc, Le16Bytes(r.ext1) + Le16Bytes(r.ext2) + Le16Bytes(r.ext3));
    Le16RoundTrip(h + Le16Bytes(r.soc), r.ext1, Le16Bytes(r.ext2) + Le16Bytes(r.ext3));
    Le16RoundTrip(h + Le16Bytes(r.soc) + Le16Bytes(r.ext1), r.ext2, Le16Bytes(r.ext3));
    Le16RoundTrip(h + Le16Bytes(r.soc) + Le16Bytes(r.ext1) + Le16Bytes(r.ext2), r.ext3, []);
    assert buf == h + Le16Bytes(r.soc) + (Le16Bytes(r.ext1) + Le16Bytes(r.ext2) + Le16Bytes(r.ext3));
    assert buf == h + Le16Bytes(r.soc) + Le16Bytes(r.ext1) + (Le16Bytes(r.ext2) + Le16Bytes(r.ext3));
    assert buf == h + Le16Bytes(r.soc) + Le16Bytes(r.ext1) + Le16Bytes(r.ext2) + Le16Bytes(r.ext3) + [];
  }

  /** Voltage and a signed power in [-32768, 32767] survive the trip through the wire format. */
  lemma VoltagePowerRoundTrip(tick: int, r: VoltagePower)
    requires InWord(r.voltage) && -0x8000 <= r.power < 0x8000
    ensures DecodeVoltagePower(EncodeVoltagePower(tick, r)) == Some(r)
  {
    var u := TwosComplement16(r.power);
    var buf := EncodeVoltagePower(tick, r);
    Le16RoundTrip(TickHeader(tick), r.voltage, Le16Bytes(u));
    assert buf[5] == u / 256 && buf[4] == u % 256;
    Signed16RoundTrip(r.power);
  }

  /** The corrected temperature decoder inverts the hub's layout. */
  lemma TemperaturesRoundTrip(tick: int, t: Temperatures)
    requires TemperatureBytes(t)
    ensures DecodeTemperatures(EncodeTemperatures(tick, t)) == Some(t)
  {
  }

  /** As written, the decoder loses the third battery's maximum: any reading whose two values
      differ comes back wrong. */
  lemma TemperaturesAsWrittenLosesMaxExt3(tick: int, t: Temperatures)
    requires TemperatureBytes(t) && t.minExt3 != t.maxExt3
    ensures DecodeTemperaturesAsWritten(EncodeTemperatures(tick, t)) != Some(t)
  {
  }

  /** A concrete reading that shows it: minimum 20, maximum 35 on the third external battery
      displays a maximum of 20. */
  lemma TemperaturesAsWrittenExample()
    ensures DecodeTemperaturesAsWritten(
              EncodeTemperatures(SystemTimeTick, Temperatures(10, 30, 11, 31, 12, 32, 20, 35))).value.maxExt3 == 20
  {
  }

  /** Decoding the control write returns the low bit of each flag and the tick modulo 2^16. */
  lemma {:induction false} CurrentRoundTrip(tick: int, on: int, ac: int, dc: int)
    ensures DecodeStatus(CurrentPayload(tick, on, ac, dc)) == Some(Status(tick % 0x1_0000, on % 2, ac % 2, dc % 2))
  {
    var p := CurrentPayload(tick, on, ac, dc);
    TickHeaderRoundTrip([ControlByte(on, ac, dc)], tick);
    assert p[2] == ControlByte(on, ac, dc);
  }

  /** Reading back an LED or LCD write gives the tick modulo 2^16 and the brightness as the
      `Uint8Array` stored it, modulo 256. */
  lemma {:induction false} BrightnessRoundTrip(tick: int, value: int)
    ensures Be16At(BrightnessPayload(tick, value), 0) == Some(tick % 0x1_0000)
    ensures DecodeBrightness(BrightnessPayload(tick, value)) == Some(value % 256)
  {
    TickHeaderRoundTrip([ToUint8(value)], tick);
  }

  /** Worked example: brightness 75 is written as 04 D2 4B. */
  lemma BrightnessPayloadExample()
    ensures BrightnessPayload(SystemTimeTick, 75) == [0x04, 0xD2, 0x4B]
  {
  }

  /** The tick never changes, so every COR write starts with the bytes 0x04, 0xD2. */
  lemma CorHeaderIsConstant()
    ensures TickHeader(SystemTimeTick) == [0x04, 0xD2]
  {
  }

  /** Worked example: system on, AC on, DC off gives the payload 04 D2 03. */
  lemma CurrentPayloadExample()
    ensures CurrentPayload(SystemTimeTick, 1, 1, 0) == [0x04, 0xD2, 0x03]
  {
  }
}
