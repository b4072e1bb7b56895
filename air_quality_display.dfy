/** The CCS811 + HDC2080 display example for the Blue Pill: every second the
    main loop takes a CCS811 result (or a sentinel when the read fails), counts
    the iteration, re-reads the HDC2080 and passes its values to the CCS811 as
    compensation when the count goes past 10, and shows the result and the
    current environment on four display lines, cleared and rewritten each
    time. */
module AirQualityDisplay {
  import opened MachineInts
  import opened Options
  import L = Ccs811Logger

  /** The result shown when the CCS811 read fails. */
  const Sentinel := L.AlgorithmResult(9999, 9999, 255, 9999)

  /** The result displayed for a CCS811 read. */
  function Shown(reading: Option<L.AlgorithmResult>): (d: L.AlgorithmResult)
    ensures reading.None? ==> d == Sentinel
    ensures reading.Some? ==> d == reading.value
  {
    reading.UnwrapOr(Sentinel)
  }

  /** A value formatted into a line buffer: `eCO2: {}`, `eTVOC: {}`,
      `Temp: {:.2}`, `Humidity: {:.2}`. */
  datatype Field = ECo2(ppm: u16) | ETvoc(ppb: u16) | Temp(celsius: F32) | Humidity(percent: F32)

  /** The four lines shown for a result and an environment (a missing
      humidity shows as 0.0). */
  function Screen(data: L.AlgorithmResult, env: L.Environment): (s: seq<seq<Field>>)
    ensures |s| == 4
  {
    var p := L.Compensation(env);
    [[ECo2(data.eco2)], [ETvoc(data.etvoc)], [Temp(p.temperature)], [Humidity(p.humidity)]]
  }

  /** The update of `counter`: up by one, back to 0 once it passes 10.  It
      stays in `[0, 10]`. */
  function CounterNext(c: int): (d: int)
    requires 0 <= c <= 10
    ensures 0 <= d <= 10
    ensures d == 0 <==> c == 10
    ensures c < 10 ==> d == c + 1
  {
    if c + 1 > 10 then 0 else c + 1
  }

  /** The loop variables of `main` that live across iterations. */
  class Monitor {
    var counter: int
    var env: L.Environment
    const lines: array<seq<Field>>

    ghost predicate Valid()
      reads this
    {
      lines.Length == 4 && 0 <= counter <= 10
    }

    /** The state before the loop: the first HDC2080 reading (already applied
        to the CCS811), a zero count and four empty line buffers. */
    constructor (initial: L.Environment)
      ensures Valid() && fresh(lines)
      ensures counter == 0 && env == initial && lines[..] == [[], [], [], []]
    {
      counter := 0;
      env := initial;
      lines := new seq<Field>[4](_ => []);
    }

    /** One iteration with the CCS811 read `reading` and the HDC2080 read
        `environment` (used only on a refresh).  Returns the result shown and
        the compensation passed to the CCS811, if any. */
    method Iterate(reading: Option<L.AlgorithmResult>, environment: L.Environment)
      returns (shown: L.AlgorithmResult, compensation: Option<L.EnvPair>)
      requires Valid()
      modifies this, lines
      ensures Valid()
      ensures shown == Shown(reading)
      ensures counter == CounterNext(old(counter))
      ensures old(counter) == 10 ==> env == environment && compensation == Some(L.Compensation(environment))
      ensures old(counter) < 10 ==> env == old(env) && compensation.None?
      ensures lines[..] == Screen(shown, env)
    {
      shown := reading.UnwrapOr(Sentinel);
      counter := counter + 1;
      compensation := None;
      if counter > 10 {
        counter := 0;
        env := environment;
        compensation := Some(L.Compensation(env));
      }
      for i := 0 to 4
        modifies lines
        invariant forall j :: 0 <= j < i ==> lines[j] == []
      {
        lines[i] := [];
      }
      var pair := L.Compensation(env);
      lines[0] := lines[0] + [ECo2(shown.eco2)];
      lines[1] := lines[1] + [ETvoc(shown.etvoc)];
      lines[2] := lines[2] + [Temp(env.temperature)];
      lines[3] := lines[3] + [Humidity(pair.humidity)];
      assert lines[0] == [ECo2(shown.eco2)] && lines[1] == [ETvoc(shown.etvoc)];
      assert lines[2] == [Temp(pair.temperature)] && lines[3] == [Humidity(pair.humidity)];
      assert lines[..] == [lines[0], lines[1], lines[2], lines[3]];
    }
  }

  /** The count before iteration `k`. */
  function CounterAt(k: nat): (c: int)
    ensures 0 <= c <= 10
  {
    if k == 0 then 0 else CounterNext(CounterAt(k - 1))
  }

  lemma {:induction false} CounterAtMod(k: nat)
    ensures CounterAt(k) == k % 11
  {
    if k > 0 {
      CounterAtMod(k - 1);
      NextCountMod(k - 1);
    }
  }

  lemma NextCountMod(m: nat)
    ensures CounterNext(m % 11) == (m + 1) % 11
  {
  }

  /** The environment in force before iteration `k`, starting from `initial`
      and taking `environments[j]` on each refreshing iteration `j`. */
  function EnvAt(initial: L.Environment, environments: seq<L.Environment>, k: nat): L.Environment
    requires k <= |environments|
  {
    if k == 0 then initial
    else if CounterAt(k - 1) == 10 then environments[k - 1]
    else EnvAt(initial, environments, k - 1)
  }

  lemma DivStep(k: nat)
    ensures k % 11 == 10 ==> (k + 1) / 11 * 11 == k + 1
    ensures k % 11 != 10 ==> (k + 1) / 11 == k / 11
  {
  }

  /** Before iteration `k` the environment is the first reading until the
      first refresh (iteration 10), and afterwards the reading taken on the
      latest refresh, iteration `11 * (k / 11) - 1`. */
  lemma {:induction false} EnvAtClosedForm(initial: L.Environment, environments: seq<L.Environment>, k: nat)
    requires k <= |environments|
    ensures k < 11 ==> EnvAt(initial, environments, k) == initial
    ensures k >= 11 ==> k / 11 * 11 - 1 < k && EnvAt(initial, environments, k) == environments[k / 11 * 11 - 1]
  {
    if k > 0 {
      EnvAtClosedForm(initial, environments, k - 1);
      CounterAtMod(k - 1);
      DivStep(k - 1);
    }
  }

  /** What iteration `k` shows. */
  function ScreenAt(initial: L.Environment, readings: seq<Option<L.AlgorithmResult>>,
                    environments: seq<L.Environment>, k: nat): seq<seq<Field>>
    requires k < |readings| == |environments|
  {
    Screen(Shown(readings[k]), EnvAt(initial, environments, k + 1))
  }

  /** What iteration `k` passes to the CCS811. */
  function CompensationAt(environments: seq<L.Environment>, k: nat): Option<L.EnvPair>
    requires k < |environments|
  {
    if CounterAt(k) == 10 then Some(L.Compensation(environments[k])) else None
  }

  /** The loop run once per pair of sensor reads, from the start: the
      compensation is refreshed on every 11th iteration (10, 21, ...) and on
      no other, with the HDC2080 reading of that iteration; every iteration
      shows the result just read and the environment of the latest refresh. */
  method Run(initial: L.Environment, readings: seq<Option<L.AlgorithmResult>>, environments: seq<L.Environment>)
    returns (screens: seq<seq<seq<Field>>>, compensations: seq<Option<L.EnvPair>>)
    requires |readings| == |environments|
    ensures |screens| == |readings| && |compensations| == |readings|
    ensures forall k :: 0 <= k < |readings| ==>
      compensations[k] == if k % 11 == 10 then Some(L.Compensation(environments[k])) else None
    ensures forall k :: 0 <= k < |readings| ==>
      screens[k] == Screen(Shown(readings[k]), EnvAt(initial, environments, k + 1))
  {
    var monitor := new Monitor(initial);
    screens, compensations := [], [];
    var k := 0;
    while k < |readings|
      invariant 0 <= k <= |readings|
      invariant monitor.Valid() && fresh(monitor.lines)
      invariant monitor.counter == CounterAt(k) && monitor.env == EnvAt(initial, environments, k)
      invariant |screens| == k && |compensations| == k
      invariant forall j :: 0 <= j < k ==> compensations[j] == CompensationAt(environments, j)
      invariant forall j :: 0 <= j < k ==> screens[j] == ScreenAt(initial, readings, environments, j)
    {
      var _, c := monitor.Iterate(readings[k], environments[k]);
      assert monitor.lines[..] == ScreenAt(initial, readings, environments, k);
      assert c == CompensationAt(environments, k);
      screens, compensations := screens + [monitor.lines[..]], compensations + [c];
      k := k + 1;
    }
    forall j | 0 <= j < |readings|
      ensures compensations[j] == if j % 11 == 10 then Some(L.Compensation(environments[j])) else None
    {
      CounterAtMod(j);
    }
  }
}
