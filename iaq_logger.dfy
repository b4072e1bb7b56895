/** The iAQ-Core-C logger for the Blue Pill: every period the `measure` task
    toggles the LED, stores one CO2/TVOC reading in a fixed log of 2400 entries
    while there is room, and then replays the whole log over the serial line. */
module IaqLogger {
  import opened MachineInts
  import opened Options
  import opened BoundedLogs

  /** The driver's `Measurement`. */
  datatype Measurement = Measurement(co2: u16, tvoc: u16, resistance: u32)

  /** `MEASUREMENTS.len()`. */
  const Capacity: nat := 2400

  /** The initial contents of every slot. */
  const Blank := Measurement(0, 0, 0)

  /** What is stored when the sensor read fails. */
  const Failed := Measurement(1, 1, 1)

  /** One replayed line: the row number and the stored measurement. */
  datatype Row = Row(number: nat, data: Measurement)

  /** The value stored for a sensor result. */
  function Stored(reading: Option<Measurement>): (m: Measurement)
    ensures reading.None? ==> m == Failed
    ensures reading.Some? ==> m == reading.value
  {
    reading.UnwrapOr(Failed)
  }

  /** The state of the `measure` task: its `static mut` variables. */
  class Logger {
    var ledState: bool
    const measurements: array<Measurement>
    var index: nat

    ghost predicate Valid()
      reads this
    {
      measurements.Length == Capacity && index <= Capacity
    }

    /** What has been logged so far. */
    ghost function Log(): seq<Measurement>
      reads this, measurements
      requires Valid()
    {
      measurements[..index]
    }

    /** The initial values of the statics. */
    constructor ()
      ensures Valid() && fresh(measurements)
      ensures !ledState && Log() == [] && measurements[..] == seq(Capacity, _ => Blank)
    {
      ledState := false;
      measurements := new Measurement[Capacity](_ => Blank);
      index := 0;
    }

    /** One run of `measure` with the sensor result `reading` (used only when
        the log has room).  Returns whether the LED is driven high, and the
        replayed rows. */
    method Measure(reading: Option<Measurement>) returns (ledHigh: bool, rows: seq<Row>)
      requires Valid()
      modifies this, measurements
      ensures Valid()
      ensures ledHigh == old(ledState) && ledState == !old(ledState)
      ensures old(index) < Capacity ==>
        index == old(index) + 1 && measurements[..] == old(measurements[..])[old(index) := Stored(reading)]
      ensures old(index) == Capacity ==> index == old(index) && measurements[..] == old(measurements[..])
      ensures Log() == Record(old(Log()), Stored(reading), Capacity)
      ensures |rows| == index && forall i :: 0 <= i < index ==> rows[i] == Row(i, measurements[i])
    {
      if ledState {
        ledHigh := true;
        ledState := false;
      } else {
        ledHigh := false;
        ledState := true;
      }
      if index < measurements.Length {
        var data := Stored(reading);
        measurements[index] := data;
        index := index + 1;
        assert measurements[..index] == old(measurements[..index]) + [data];
      }
      rows := Replay();
    }

    /** The replay at the end of `measure`: one row per stored entry, in
        order. */
    method Replay() returns (rows: seq<Row>)
      requires Valid()
      ensures |rows| == index && forall i :: 0 <= i < index ==> rows[i] == Row(i, measurements[i])
    {
      rows := [];
      var i := 0;
      while i < index
        invariant 0 <= i <= index
        invariant |rows| == i && forall j :: 0 <= j < i ==> rows[j] == Row(j, measurements[j])
      {
        rows := rows + [Row(i, measurements[i])];
        i := i + 1;
      }
    }
  }

  /** The values stored for a sequence of sensor results. */
  function StoredAll(readings: seq<Option<Measurement>>): (ms: seq<Measurement>)
    ensures |ms| == |readings|
    ensures forall i :: 0 <= i < |readings| ==> ms[i] == Stored(readings[i])
  {
    seq(|readings|, i requires 0 <= i < |readings| => Stored(readings[i]))
  }

  /** The task run once per sensor result, from the start: the log ends up
      holding the first 2400 results (the failed ones as `Failed`), in order,
      and the last replay prints all of them.  The LED is driven low, high,
      low, ... on successive calls. */
  method Session(readings: seq<Option<Measurement>>) returns (leds: seq<bool>, rows: seq<Row>)
    ensures |leds| == |readings| && forall k :: 0 <= k < |leds| ==> leds[k] == (k % 2 == 1)
    ensures |rows| == Min(|readings|, Capacity)
    ensures forall i :: 0 <= i < |rows| ==> rows[i] == Row(i, Stored(readings[i]))
  {
    var logger := new Logger();
    leds, rows := [], [];
    var k := 0;
    while k < |readings|
      invariant 0 <= k <= |readings|
      invariant logger.Valid() && fresh(logger.measurements)
      invariant logger.ledState == (k % 2 == 1)
      invariant |leds| == k && forall j :: 0 <= j < k ==> leds[j] == (j % 2 == 1)
      invariant logger.Log() == Replay(StoredAll(readings[..k]), Capacity)
      invariant |rows| == logger.index && forall i :: 0 <= i < |rows| ==> rows[i] == Row(i, logger.Log()[i])
    {
      assert StoredAll(readings[..k + 1]) == StoredAll(readings[..k]) + [Stored(readings[k])];
      var high, r := logger.Measure(readings[k]);
      leds, rows := leds + [high], r;
      k := k + 1;
    }
    assert readings[..k] == readings;
    ReplayKeepsFirst(StoredAll(readings), Capacity);
  }
}
