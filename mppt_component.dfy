/** The MPPT card component: its background task, which reads the power/voltage and the
    temperature characteristics into fresh locals and stores one sample, and its on/off
    switch. */
module MpptComponent {
  import opened ByteCodec
  import opened MpptCodec

  /** The values one background run hands to `saveToDatabase`, in its argument order. */
  datatype Sample = Sample(power: int, temp1: int, temp2: int, voltage: real)

  /** The background `readCharacteristics`. The four locals start at 0. The first read sets
      the power and then the voltage in volts (tenths); the second sets temp1 and then temp2,
      each from its own pair. A failed read, or a value too short for the next pair, leaves
      the remaining locals as they were. The second read runs whatever became of the first. */
  method BackgroundRead(first: ReadOutcome, second: ReadOutcome) returns (s: Sample)
    ensures s.power == PairOr(first, 2, 0)
    ensures s.voltage == PairOr(first, 4, 0) as real / 10.0
    ensures s.temp1 == PairOr(second, 2, 0)
    ensures s.temp2 == PairOr(second, 4, 0)
    ensures first.ReadBytes? && |first.data| >= 6 ==>
      var pv := DecodePowerVoltage(first.data).value;
      s.power == pv.power && s.voltage * 10.0 == pv.voltage as real
    ensures second.ReadBytes? && |second.data| >= 6 ==>
      MpptTemperatures(s.temp1, s.temp2) == DecodeTemperatures(second.data).value
    ensures first.ReadFailed? ==> s.power == 0 && s.voltage == 0.0
    ensures second.ReadFailed? ==> s.temp1 == 0 && s.temp2 == 0
  {
    var power, voltage, temp1, temp2 := 0, 0.0, 0, 0;
    if first.ReadBytes? {
      var v := Le16At(first.data, 2);
      if v.Some? {
        power := v.value;
        v := Le16At(first.data, 4);
        if v.Some? {
          voltage := v.value as real / 10.0;
        }
      }
    }
    if second.ReadBytes? {
      var t := Le16At(second.data, 2);
      if t.Some? {
        temp1 := t.value;
        t := Le16At(second.data, 4);
        if t.Some? {
          temp2 := t.value;
        }
      }
    }
    s := Sample(power, temp1, temp2, voltage);
  }

  /** The Realm collection the samples go to. */
  class DataStore {
    var rows: seq<Sample>

    constructor ()
      ensures rows == []
    {
      rows := [];
    }

    /** `saveToDatabase`: a failing write is logged and swallowed, so the call always returns. */
    method SaveToDatabase(s: Sample, writeOk: bool)
      modifies this
      ensures rows == if writeOk then old(rows) + [s] else old(rows)
    {
      if writeOk {
        rows := rows + [s];
      }
    }
  }

  /** One background run: both reads, then exactly one save of the sample they produced. */
  method BackgroundTask(db: DataStore, first: ReadOutcome, second: ReadOutcome, writeOk: bool) returns (s: Sample)
    modifies db
    ensures s.power == PairOr(first, 2, 0) && s.voltage == PairOr(first, 4, 0) as real / 10.0
    ensures s.temp1 == PairOr(second, 2, 0) && s.temp2 == PairOr(second, 4, 0)
    ensures db.rows == if writeOk then old(db.rows) + [s] else old(db.rows)
  {
    s := BackgroundRead(first, second);
    db.SaveToDatabase(s, writeOk);
  }

  /** The card's on/off switch. `setControlSignal` is the parent's callback; the values it
      was called with are recorded in `sent`. */
  class SystemSwitch {
    var signalControl: bool
    var sent: seq<int>

    constructor ()
      ensures !signalControl && sent == []
    {
      signalControl, sent := false, [];
    }

    /** `handleSystemPressMPPT`: flips the local flag and passes 0 when it was on, 1 when it
        was off. */
    method HandleSystemPress()
      modifies this
      ensures signalControl == !old(signalControl)
      ensures sent == old(sent) + [if old(signalControl) then 0 else 1]
    {
      if signalControl {
        signalControl := false;
        sent := sent + [0];
      } else {
        signalControl := true;
        sent := sent + [1];
      }
    }
  }
}
