/** The CCS811 logger with HDC2080 compensation for the Blue Pill: every period
    the `measure` task toggles the LED and, while there is room in its two
    1200-entry logs, stores one CCS811 result and the HDC2080 environment read
    after it, and passes that environment to the CCS811 as compensation for the
    next measurement.  It then prints a `start` line and replays the log, each
    row showing the environment the measurement was compensated with. */
module Ccs811Logger {
  import opened MachineInts
  import opened Options
  import opened BoundedLogs

  /** The driver's `AlgorithmResult`. */
  datatype AlgorithmResult = AlgorithmResult(eco2: u16, etvoc: u16, rawCurrent: u8, rawVoltage: u16)

  /** An HDC2080 reading: a temperature and, if the device measures it, a
      humidity. */
  datatype Environment = Environment(temperature: F32, humidity: Option<F32>)

  /** A stored `(temperature, humidity)` pair. */
  datatype EnvPair = EnvPair(temperature: F32, humidity: F32)

  /** `MEASUREMENTS.len()`, which is also `ENV.len()`. */
  const Capacity: nat := 1200

  /** `AlgorithmResult::default()`: the initial slots and what is stored when
      the CCS811 read fails. */
  const Default := AlgorithmResult(0, 0, 0, 0)

  /** `(0.0, 0.0)`. */
  const NoEnv := EnvPair(ZeroF32, ZeroF32)

  /** A line sent over the serial port. */
  datatype Line = Start | Row(number: nat, data: AlgorithmResult, env: EnvPair)

  /** The pair stored and applied for an HDC2080 reading: a missing humidity
      becomes 0.0. */
  function Compensation(e: Environment): (p: EnvPair)
    ensures p.temperature == e.temperature
    ensures e.humidity.None? ==> p.humidity == ZeroF32
    ensures e.humidity.Some? ==> p.humidity == e.humidity.value
  {
    EnvPair(e.temperature, e.humidity.UnwrapOr(ZeroF32))
  }

  /** The pairs `(a[i], b[i])`. */
  function Zip<A, B>(a: seq<A>, b: seq<B>): (z: seq<(A, B)>)
    requires |a| == |b|
    ensures |z| == |a| && forall i :: 0 <= i < |a| ==> z[i] == (a[i], b[i])
  {
    if |a| == 0 then [] else Zip(a[..|a| - 1], b[..|b| - 1]) + [(a[|a| - 1], b[|b| - 1])]
  }

  /** What a call stores for a pair of sensor results. */
  function Entry(reading: Option<AlgorithmResult>, environment: Environment): (AlgorithmResult, EnvPair)
  {
    (reading.UnwrapOr(Default), Compensation(environment))
  }

  /** The state of the `measure` task: its `static mut` variables. */
  class Logger {
    var ledState: bool
    const measurements: array<AlgorithmResult>
    const env: array<EnvPair>
    var index: nat

    ghost predicate Valid()
      reads this
    {
      measurements.Length == Capacity && env.Length == Capacity && index <= Capacity
    }

    /** What has been logged so far: both arrays are filled to `index`. */
    ghost function Log(): seq<(AlgorithmResult, EnvPair)>
      reads this, measurements, env
      requires Valid()
    {
      Zip(measurements[..index], env[..index])
    }

    /** The initial values of the statics. */
    constructor ()
      ensures Valid() && fresh(measurements) && fresh(env)
      ensures !ledState && index == 0
      ensures measurements[..] == seq(Capacity, _ => Default) && env[..] == seq(Capacity, _ => NoEnv)
    {
      ledState := false;
      measurements := new AlgorithmResult[Capacity](_ => Default);
      env := new EnvPair[Capacity](_ => NoEnv);
      index := 0;
    }

    /** One run of `measure` with the CCS811 result `reading` and the HDC2080
        reading `environment` (both used only when the log has room).  Returns
        whether the LED is driven high, the compensation passed to the CCS811
        (none when full) and the lines printed. */
    method Measure(reading: Option<AlgorithmResult>, environment: Environment)
      returns (ledHigh: bool, compensation: Option<EnvPair>, lines: seq<Line>)
      requires Valid()
      modifies this, measurements, env
      ensures Valid()
      ensures ledHigh == old(ledState) && ledState == !old(ledState)
      ensures old(index) < Capacity ==>
        index == old(index) + 1
        && measurements[..] == old(measurements[..])[old(index) := reading.UnwrapOr(Default)]
        && env[..] == old(env[..])[old(index) := Compensation(environment)]
        && compensation == Some(Compensation(environment))
      ensures old(index) == Capacity ==>
        index == old(index) && measurements[..] == old(measurements[..]) && env[..] == old(env[..])
        && compensation.None?
      ensures Log() == Record(old(Log()), Entry(reading, environment), Capacity)
      ensures |lines| == index + 1 && lines[0] == Start
      ensures forall i :: 0 <= i < index ==>
        lines[i + 1] == Row(i, measurements[i], if i == 0 then NoEnv else env[i - 1])
    {
      if ledState {
        ledHigh := true;
        ledState := false;
      } else {
        ledHigh := false;
        ledState := true;
      }
      compensation := None;
      if index < measurements.Length {
        var data := reading.UnwrapOr(Default);
        measurements[index] := data;
        var pair := Compensation(environment);
        env[index] := pair;
        index := index + 1;
        compensation := Some(pair);
        assert Log() == old(Log()) + [(data, pair)];
      }
      lines := Replay();
    }

    /** The replay at the end of `measure`: a `start` line, then row `i` for
        each stored entry, with the compensation in force when measurement
        `i` was taken (none for the first row, else the pair stored one call
        earlier). */
    method Replay() returns (lines: seq<Line>)
      requires Valid()
      ensures |lines| == index + 1 && lines[0] == Start
      ensures forall i :: 0 <= i < index ==>
        lines[i + 1] == Row(i, measurements[i], if i == 0 then NoEnv else env[i - 1])
    {
      lines := [Start];
      var i := 0;
      while i < index
        invariant 0 <= i <= index
        invariant |lines| == i + 1 && lines[0] == Start
        invariant forall j :: 0 <= j < i ==>
          lines[j + 1] == Row(j, measurements[j], if j == 0 then NoEnv else env[j - 1])
      {
        var e := if i == 0 then NoEnv else env[i - 1];
        lines := lines + [Row(i, measurements[i], e)];
        i := i + 1;
      }
    }
  }

  /** Row `i` of a replay after the calls with `readings` and
      `environments`: the CCS811 result of call `i` and the environment read
      on call `i - 1` (none for row 0), which was the compensation in force
      when measurement `i` was taken. */
  function RowAt(readings: seq<Option<AlgorithmResult>>, environments: seq<Environment>, i: nat): Line
    requires i < |readings| == |environments|
  {
    Row(i, readings[i].UnwrapOr(Default), if i == 0 then NoEnv else Compensation(environments[i - 1]))
  }

  /** What the first `n` calls store. */
  function Entries(readings: seq<Option<AlgorithmResult>>, environments: seq<Environment>, n: nat)
    : (es: seq<(AlgorithmResult, EnvPair)>)
    requires n <= |readings| == |environments|
    ensures |es| == n && forall i :: 0 <= i < n ==> es[i] == Entry(readings[i], environments[i])
  {
    if n == 0 then [] else Entries(readings, environments, n - 1) + [Entry(readings[n - 1], environments[n - 1])]
  }

  /** The logger holds what the first `k` calls stored. */
  ghost predicate Logged(logger: Logger, readings: seq<Option<AlgorithmResult>>,
                         environments: seq<Environment>, k: nat)
    reads logger, logger.measurements, logger.env
  {
    logger.Valid() && k <= |readings| == |environments| && logger.index == Min(k, Capacity)
    && logger.Log() == Entries(readings, environments, logger.index)
  }

  /** `lines` is a `start` line followed by the first `n` rows. */
  ghost predicate Printed(lines: seq<Line>, readings: seq<Option<AlgorithmResult>>,
                          environments: seq<Environment>, n: nat)
  {
    n <= |readings| == |environments| && |lines| == n + 1 && lines[0] == Start
    && forall i :: 0 <= i < n ==> lines[i + 1] == RowAt(readings, environments, i)
  }

  /** Call `k` of a session. */
  method Call(logger: Logger, readings: seq<Option<AlgorithmResult>>, environments: seq<Environment>, k: nat)
    returns (compensation: Option<EnvPair>, lines: seq<Line>)
    requires k < |readings| && Logged(logger, readings, environments, k)
    modifies logger, logger.measurements, logger.env
    ensures Logged(logger, readings, environments, k + 1)
    ensures compensation == if k < Capacity then Some(Compensation(environments[k])) else None
    ensures Printed(lines, readings, environments, Min(k + 1, Capacity))
  {
    var _, c, l := logger.Measure(readings[k], environments[k]);
    compensation, lines := c, l;
    forall i | 0 <= i < logger.index
      ensures lines[i + 1] == RowAt(readings, environments, i)
    {
      assert logger.Log()[i] == (logger.measurements[i], logger.env[i]);
      if i > 0 {
        assert logger.Log()[i - 1] == (logger.measurements[i - 1], logger.env[i - 1]);
      }
    }
  }

  /** The task run once per pair of sensor results, from the start (`lines`
      is just `start` when there was no call): the last call prints `start`
      and one row per logged call, up to 1200, where row `i` holds the CCS811
      result of call `i` and the environment read on call `i - 1`; every call
      that logged something passes its environment on as compensation. */
  method Session(readings: seq<Option<AlgorithmResult>>, environments: seq<Environment>)
    returns (compensations: seq<Option<EnvPair>>, lines: seq<Line>)
    requires |readings| == |environments|
    ensures |compensations| == |readings|
    ensures forall k :: 0 <= k < |readings| ==>
      compensations[k] == if k < Capacity then Some(Compensation(environments[k])) else None
    ensures |lines| == Min(|readings|, Capacity) + 1 && lines[0] == Start
    ensures forall i :: 0 <= i < Min(|readings|, Capacity) ==>
      lines[i + 1] == Row(i, readings[i].UnwrapOr(Default),
                          if i == 0 then NoEnv else Compensation(environments[i - 1]))
  {
    var logger := new Logger();
    compensations, lines := [], [Start];
    var k := 0;
    while k < |readings|
      invariant 0 <= k <= |readings|
      invariant fresh(logger.measurements) && fresh(logger.env)
      invariant Logged(logger, readings, environments, k)
      invariant Printed(lines, readings, environments, Min(k, Capacity))
      invariant |compensations| == k
      invariant forall j :: 0 <= j < k ==>
        compensations[j] == if j < Capacity then Some(Compensation(environments[j])) else None
    {
      var c, l := Call(logger, readings, environments, k);
      compensations, lines := compensations + [c], l;
      k := k + 1;
    }
    forall i | 0 <= i < Min(|readings|, Capacity)
      ensures lines[i + 1] == Row(i, readings[i].UnwrapOr(Default),
                                  if i == 0 then NoEnv else Compensation(environments[i - 1]))
    {
      assert lines[i + 1] == RowAt(readings, environments, i);
    }
  }
}
