/** The PCA9685 example for the Blue Pill: an RGB hue wheel on channels 0-5 (the
    colour and its complement, for a common-cathode and a common-anode LED),
    five servos sweeping on channels 10-14, and the array of 16 off-values the
    main loop fills and sends on every iteration. */
module RgbServos {
  import opened MachineInts
  import opened Options

  // ------------------------------------------------------------------ Rainbow

  datatype Rgb = Rgb(r: u16, g: u16, b: u16)

  /** The full component value, `60 * 68`: a sector of 60 hues ramps one
      component by 68 per hue. */
  const Full: u16 := 4080

  predicate InRange(c: Rgb)
  {
    c.r <= Full && c.g <= Full && c.b <= Full
  }

  /** A fully saturated colour at full value: one component is at `Full` and
      another one is off. */
  predicate Saturated(c: Rgb)
  {
    (c.r == Full || c.g == Full || c.b == Full) && (c.r == 0 || c.g == 0 || c.b == 0)
  }

  /** The `match` of `Rainbow::next`: six sectors of the HSV hexcone; any hue
      past 360 falls to the `_` arm. */
  function HueToRgb(hue: u16): (c: Option<Rgb>)
    ensures c.Some? <==> hue <= 360
    ensures c.Some? ==> InRange(c.value) && Saturated(c.value)
  {
    if hue <= 59 then Some(Rgb(4080, hue * 68, 0))
    else if hue <= 119 then Some(Rgb((120 - hue) * 68, 4080, 0))
    else if hue <= 179 then Some(Rgb(0, 4080, (hue - 120) * 68))
    else if hue <= 239 then Some(Rgb(0, (240 - hue) * 68, 4080))
    else if hue <= 299 then Some(Rgb((hue - 240) * 68, 0, 4080))
    else if hue <= 360 then Some(Rgb(4080, 0, (360 - hue) * 68))
    else None
  }

  /** `(hue + 1) % 361` on a `u16` (the add wraps as in a release build). */
  function NextHue(hue: u16): (n: u16)
    ensures n <= 360
    ensures hue < 360 ==> n == hue + 1
    ensures hue == 360 ==> n == 0
  {
    ((hue + 1) % 0x1_0000) % 361
  }

  function Distance(x: int, y: int): nat
  {
    if x <= y then y - x else x - y
  }

  /** No component moves by more than one ramp step. */
  predicate Close(a: Rgb, b: Rgb)
  {
    Distance(a.r, b.r) <= 68 && Distance(a.g, b.g) <= 68 && Distance(a.b, b.b) <= 68
  }

  /** Smooth transitions: consecutive colours of the wheel are close, across
      the sector boundaries and across the wrap from 360 to 0. */
  lemma Smooth(hue: u16)
    requires hue <= 360
    ensures Close(HueToRgb(hue).value, HueToRgb(NextHue(hue)).value)
  {
  }

  /** Hues 360 and 0 give the same colour, pure red, so each turn of the wheel
      shows red on two consecutive calls. */
  lemma WrapRepeatsRed()
    ensures HueToRgb(360) == HueToRgb(0) == Some(Rgb(Full, 0, 0))
  {
  }

  /** The hue wheel. */
  class Rainbow {
    var hue: u16

    /** `Rainbow::new`. */
    constructor (hue: u16)
      ensures this.hue == hue
    {
      this.hue := hue;
    }

    /** `Rainbow::next`: moves the hue on and returns its colour, never `None`. */
    method Next() returns (c: Option<Rgb>)
      modifies this
      ensures hue == NextHue(old(hue))
      ensures c == HueToRgb(hue) && c.Some?
    {
      hue := ((hue + 1) % 0x1_0000) % 361;
      c := HueToRgb(hue);
    }
  }

  // ------------------------------------------------------------------- Servo

  /** `Servo::MIN` and `Servo::MAX`, pulse lengths out of 4096. */
  const ServoMin: u16 := 132
  const ServoMax: u16 := 608

  datatype ServoState = ServoState(current: u16, factor: i16)

  /** The servo invariant: an even pulse length within `[ServoMin, ServoMax]`
      moving by two either way. */
  ghost predicate ServoInv(s: ServoState)
  {
    ServoMin <= s.current <= ServoMax && s.current % 2 == 0 && (s.factor == 2 || s.factor == -2)
  }

  /** One call of `Servo::next`: turn back at or beyond either end, then move by
      the factor. */
  function ServoNext(s: ServoState): (r: ServoState)
    ensures s.current >= ServoMax ==> r.factor == -2
    ensures ServoMin < s.current < ServoMax ==> r.factor == s.factor
    ensures s.current <= ServoMin ==> r.factor == 2
  {
    var factor: i16 := if s.current >= ServoMax then -2 else if s.current <= ServoMin then 2 else s.factor;
    ServoState(AddSigned(s.current, factor), factor)
  }

  /** `Servo::next` keeps the invariant, and within it the cast never wraps. */
  lemma ServoNextKeepsInv(s: ServoState)
    requires ServoInv(s)
    ensures ServoInv(ServoNext(s)) && ServoNext(s).current == s.current + ServoNext(s).factor
  {
    var r := ServoNext(s);
    if s.current == ServoMax {
      assert r.current == ServoMax - 2;
    } else if s.current == ServoMin {
      assert r.current == ServoMin + 2;
    } else {
      assert ServoMin + 2 <= s.current <= ServoMax - 2;
      assert r.current == s.current + s.factor;
    }
  }

  /** The offsets `ServoMin + 40 * i` the program starts its five servos at,
      with factor 2, satisfy the invariant. */
  lemma InitialServosValid(i: nat)
    requires i < 5
    ensures ServoInv(ServoState(ServoMin + 40 * i, 2))
  {
  }

  /** The pulse length `m` steps into a sweep that starts at `ServoMin`: up for
      238 steps, down for 238 steps. */
  function Triangle(m: nat): (v: nat)
    requires m <= 476
    ensures v <= 238
  {
    if m <= 238 then m else 476 - m
  }

  /** Phase `j` of the sweep: the servo state after `j + 1` calls from
      `(ServoMin, 2)`. */
  function Phase(j: nat): (s: ServoState)
    requires j < 476
    ensures ServoInv(s)
  {
    ServoState(ServoMin + 2 * Triangle(j + 1), if j < 238 then 2 else -2)
  }

  function NextPhase(j: nat): (k: nat)
    requires j < 476
    ensures k < 476
  {
    if j == 475 then 0 else j + 1
  }

  /** A call moves the sweep one phase on, including both turns. */
  lemma PhaseStep(j: nat)
    requires j < 476
    ensures ServoNext(Phase(j)) == Phase(NextPhase(j))
  {
    var s := Phase(j);
    ServoNextKeepsInv(s);
    if j < 237 {
      assert ServoMin < s.current < ServoMax && s.factor == 2;
    } else if j == 237 {
      assert s.current == ServoMax;
    } else if j < 475 {
      assert ServoMin < s.current < ServoMax && s.factor == -2;
    } else {
      assert s.current == ServoMin;
    }
  }

  /** The servo started at offset `ServoMin + 40 * i` is `20 * i` phases ahead. */
  lemma StartPhase(i: nat)
    requires i < 5
    ensures ServoNext(ServoState(ServoMin + 40 * i, 2)) == Phase(20 * i)
  {
  }

  /** The state after `n` calls from `s`. */
  function ServoAfter(s: ServoState, n: nat): ServoState
  {
    if n == 0 then s else ServoNext(ServoAfter(s, n - 1))
  }

  function ServoStart(i: nat): ServoState
    requires i < 5
  {
    ServoState(ServoMin + 40 * i, 2)
  }

  /** The phase servo `i` is at after `k + 1` calls: it starts `20 * i` phases
      ahead and moves one phase per call. */
  function PhaseAt(i: nat, k: nat): (j: nat)
    requires i < 5
    ensures j < 476
  {
    if k == 0 then 20 * i else NextPhase(PhaseAt(i, k - 1))
  }

  /** Servo `i` after `k + 1` calls is at `PhaseAt(i, k)`. */
  lemma {:induction false} ServoClosedForm(i: nat, k: nat)
    requires i < 5
    ensures ServoAfter(ServoStart(i), k + 1) == Phase(PhaseAt(i, k))
    decreases k
  {
    if k == 0 {
      StartPhase(i);
    } else {
      ServoClosedForm(i, k - 1);
      PhaseStep(PhaseAt(i, k - 1));
    }
  }

  /** The phases wrap round with period 476. */
  lemma {:induction false} PhaseAtMod(i: nat, k: nat)
    requires i < 5
    ensures PhaseAt(i, k) == (k + 20 * i) % 476
    decreases k
  {
    if k > 0 {
      PhaseAtMod(i, k - 1);
      NextPhaseMod(k - 1 + 20 * i);
    }
  }

  lemma NextPhaseMod(m: nat)
    ensures NextPhase(m % 476) == (m + 1) % 476
  {
  }

  /** A servo. */
  class Servo {
    var current: u16
    var factor: i16

    function State(): ServoState
      reads this
    {
      ServoState(current, factor)
    }

    /** `Servo::new`. */
    constructor (offset: u16)
      ensures State() == ServoState(offset, 2)
    {
      current, factor := offset, 2;
    }

    /** `Servo::next`: always `Some` of the new pulse length. */
    method Next() returns (v: Option<u16>)
      modifies this
      ensures State() == ServoNext(old(State()))
      ensures v == Some(current)
    {
      if current >= ServoMax {
        factor := -2;
      } else if current <= ServoMin {
        factor := 2;
      }
      current := AddSigned(current, factor);
      v := Some(current);
    }
  }

  // -------------------------------------------------------------- Main loop

  /** `4080 >> 5`. */
  const LevelMax: u16 := 127

  /** `x >> 5` on a `u16`, dimming the LEDs. */
  function Dim(x: u16): (l: u16)
    requires x <= Full
    ensures l <= LevelMax
  {
    x / 32
  }

  /** `values[0..6]`: the dimmed colour for one LED and its complement
      `LevelMax - x` for the other; each pair adds up to `LevelMax`. */
  function LedValues(c: Rgb): (v: seq<u16>)
    requires InRange(c)
    ensures |v| == 6
    ensures forall i :: 0 <= i < 3 ==> v[i] <= LevelMax && v[i] as int + v[i + 3] == LevelMax
  {
    [Dim(c.r), Dim(c.g), Dim(c.b), LevelMax - Dim(c.r), LevelMax - Dim(c.g), LevelMax - Dim(c.b)]
  }

  /** The `for` loop over the servos: slot `10 + i` gets the new pulse length
      of servo `i`, and no other slot is written. */
  method StepServos(servos: array<Servo>, values: array<u16>)
    requires values.Length == 16 && servos.Length == 5
    requires forall i, j :: 0 <= i < j < 5 ==> servos[i] != servos[j]
    modifies values, servos[..]
    ensures forall i :: 0 <= i < 5 ==> servos[i].State() == ServoNext(old(servos[i].State()))
    ensures forall i :: 0 <= i < 5 ==> values[10 + i] == servos[i].current
    ensures values[..10] == old(values[..10]) && values[15] == old(values[15])
  {
    for i := 0 to 5
      invariant values[..10] == old(values[..10]) && values[15] == old(values[15])
      invariant forall j :: 0 <= j < i ==>
        servos[j].State() == ServoNext(old(servos[j].State())) && values[10 + j] == servos[j].current
      invariant forall j :: i <= j < 5 ==> servos[j].State() == old(servos[j].State())
    {
      var v := servos[i].Next();
      if v.Some? {
        values[i + 10] := v.value;
      }
    }
  }

  /** The LED half of an iteration: slots 0-2 get the dimmed colour and
      slots 3-5 its complement; nothing else is written. */
  method ShowColour(colour: Rgb, values: array<u16>)
    requires values.Length == 16 && InRange(colour)
    modifies values
    ensures values[..6] == LedValues(colour)
    ensures values[6..] == old(values[6..])
  {
    var r, g, b := Dim(colour.r), Dim(colour.g), Dim(colour.b);
    values[0] := r;
    values[1] := g;
    values[2] := b;
    values[3] := LevelMax - r;
    values[4] := LevelMax - g;
    values[5] := LevelMax - b;
    assert values[..6] == LedValues(colour);
  }

  /** One iteration of the main loop on the `values` array: the LED slots
      0-5 get the new colour, slots 10-14 the five servos' new pulse lengths,
      and slots 6-9 and 15 are not written. */
  method Iteration(rainbow: Rainbow, servos: array<Servo>, values: array<u16>)
    requires values.Length == 16 && servos.Length == 5
    requires forall i, j :: 0 <= i < j < 5 ==> servos[i] != servos[j]
    modifies rainbow, values, servos[..]
    ensures rainbow.hue == NextHue(old(rainbow.hue))
    ensures forall i :: 0 <= i < 5 ==> servos[i].State() == ServoNext(old(servos[i].State()))
    ensures values[..6] == LedValues(HueToRgb(rainbow.hue).value)
    ensures forall i :: 0 <= i < 5 ==> values[10 + i] == servos[i].current
    ensures values[6..10] == old(values[6..10]) && values[15] == old(values[15])
  {
    var colour := rainbow.Next();
    if colour.Some? {
      ShowColour(colour.value, values);
      ghost var shown := values[..];
      assert shown[6..10] == old(values[6..10]) && shown[15] == old(values[15]);
      StepServos(servos, values);
      assert values[..6] == values[..10][..6] == shown[..10][..6];
    }
  }

  /** The pulse length of servo `i` on iteration `k`. */
  function ServoValue(i: nat, k: nat): (v: u16)
    requires i < 5
    ensures ServoMin <= v <= ServoMax
  {
    Phase(PhaseAt(i, k)).current
  }

  /** Each servo repeats its values with period 476. */
  lemma ServoPeriodic(i: nat, k: nat)
    requires i < 5
    ensures ServoValue(i, k + 476) == ServoValue(i, k)
  {
    PhaseAtMod(i, k);
    PhaseAtMod(i, k + 476);
    ModPeriod(k + 20 * i);
  }

  lemma ModPeriod(m: nat)
    ensures (m + 476) % 476 == m % 476
  {
  }

  /** The values the program sends on iteration `k` (0-based). */
  function Frame(k: nat): (f: seq<u16>)
    ensures |f| == 16
  {
    LedValues(HueToRgb(HueAt(k + 1)).value) + [0, 0, 0, 0]
      + [ServoValue(0, k), ServoValue(1, k), ServoValue(2, k), ServoValue(3, k), ServoValue(4, k)] + [0]
  }

  lemma FrameIs(v: seq<u16>, k: nat)
    requires |v| == 16 && v[..6] == LedValues(HueToRgb(HueAt(k + 1)).value)
    requires v[6..10] == [0, 0, 0, 0] && v[15] == 0
    requires forall i :: 0 <= i < 5 ==> v[10 + i] == ServoValue(i, k)
    ensures v == Frame(k)
  {
    assert v == v[..6] + v[6..10] + v[10..15] + [v[15]];
  }

  /** What every frame satisfies: complementary LED pairs, servo pulses within
      limits, and the unused slots still 0. */
  lemma FrameShape(k: nat)
    ensures forall i :: 0 <= i < 3 ==> Frame(k)[i] as int + Frame(k)[i + 3] == LevelMax
    ensures forall i :: 10 <= i < 15 ==> ServoMin <= Frame(k)[i] <= ServoMax
    ensures forall i :: 6 <= i < 10 || i == 15 ==> Frame(k)[i] == 0
  {
  }

  /** The array after iteration `k` is `Frame(k)`. */
  lemma NextFrame(k: nat, v: seq<u16>, states: seq<ServoState>)
    requires |v| == 16 && v[..6] == LedValues(HueToRgb(HueAt(k + 1)).value)
    requires v[6..10] == [0, 0, 0, 0] && v[15] == 0
    requires |states| == 5
    requires forall i :: 0 <= i < 5 ==> states[i] == ServoAfter(ServoStart(i), k + 1)
    requires forall i :: 0 <= i < 5 ==> v[10 + i] == states[i].current
    ensures v == Frame(k)
  {
    forall i | 0 <= i < 5
      ensures v[10 + i] == ServoValue(i, k)
    {
      ServoClosedForm(i, k);
    }
    FrameIs(v, k);
  }

  /** The frames of iterations `0 .. n - 1`. */
  function Frames(n: nat): (fs: seq<seq<u16>>)
    ensures |fs| == n
  {
    if n == 0 then [] else Frames(n - 1) + [Frame(n - 1)]
  }

  lemma {:induction false} FramesIndex(n: nat)
    ensures forall k :: 0 <= k < n ==> Frames(n)[k] == Frame(k)
  {
    if n > 0 {
      FramesIndex(n - 1);
    }
  }

  /** The hue after `k` calls from `Rainbow::new(0)`. */
  function HueAt(k: nat): (h: u16)
    ensures h <= 360
  {
    if k == 0 then 0 else NextHue(HueAt(k - 1))
  }

  /** The hue counts up modulo 361: `Rainbow::new(0)` goes round the wheel once
      every 361 calls. */
  lemma {:induction false} HueAtMod(k: nat)
    ensures HueAt(k) == k % 361
  {
    if k > 0 {
      HueAtMod(k - 1);
      NextHueMod(k - 1);
    }
  }

  lemma NextHueMod(m: nat)
    ensures NextHue(m % 361) == (m + 1) % 361
  {
  }

  /** The rainbow at hue 0, the five servos at `ServoMin + 40 * i`, and the
      zeroed `values` array `main` sets up before its loop. */
  method Setup() returns (rainbow: Rainbow, servos: array<Servo>, values: array<u16>)
    ensures fresh(rainbow) && fresh(servos) && fresh(values)
    ensures servos.Length == 5 && values.Length == 16
    ensures forall i, j :: 0 <= i < j < 5 ==> servos[i] != servos[j]
    ensures forall i :: 0 <= i < 5 ==> fresh(servos[i]) && servos[i].State() == ServoStart(i)
    ensures rainbow.hue == 0 && values[..] == seq(16, _ => 0)
  {
    rainbow := new Rainbow(0);
    var s0 := new Servo(ServoMin);
    var s1 := new Servo(ServoMin + 40);
    var s2 := new Servo(ServoMin + 80);
    var s3 := new Servo(ServoMin + 120);
    var s4 := new Servo(ServoMin + 160);
    servos := new Servo[5] [s0, s1, s2, s3, s4];
    values := new u16[16](_ => 0);
  }

  /** The program state before iteration `k` (0-based) of the main loop. */
  ghost predicate AtIteration(rainbow: Rainbow, servos: array<Servo>, values: array<u16>, k: nat)
    reads rainbow, servos, values, servos[..]
  {
    servos.Length == 5 && values.Length == 16
    && (forall i, j :: 0 <= i < j < 5 ==> servos[i] != servos[j])
    && rainbow.hue == HueAt(k)
    && (forall i :: 0 <= i < 5 ==> servos[i].State() == ServoAfter(ServoStart(i), k))
    && values[6..10] == [0, 0, 0, 0] && values[15] == 0
  }

  /** Iteration `k` sends `Frame(k)` and leads to the state before
      iteration `k + 1`. */
  method Tick(rainbow: Rainbow, servos: array<Servo>, values: array<u16>, ghost k: nat)
    requires AtIteration(rainbow, servos, values, k)
    modifies rainbow, values, servos[..]
    ensures servos[..] == old(servos[..])
    ensures AtIteration(rainbow, servos, values, k + 1)
    ensures values[..] == Frame(k)
  {
    Iteration(rainbow, servos, values);
    ghost var states := [servos[0].State(), servos[1].State(), servos[2].State(), servos[3].State(), servos[4].State()];
    NextFrame(k, values[..], states);
  }

  /** `n` iterations of the main loop from the initial rainbow, servos and
      zeroed array: the sequence of arrays sent to the PCA9685. */
  method Run(n: nat) returns (frames: seq<seq<u16>>)
    ensures |frames| == n
    ensures forall k :: 0 <= k < n ==> frames[k] == Frame(k)
  {
    var rainbow, servos, values := Setup();
    frames := [];
    ghost var team := servos[..];
    var k := 0;
    while k < n
      invariant 0 <= k <= n
      invariant servos[..] == team
      invariant fresh(rainbow) && fresh(values) && forall i :: 0 <= i < |team| ==> fresh(team[i])
      invariant AtIteration(rainbow, servos, values, k)
      invariant frames == Frames(k)
    {
      Tick(rainbow, servos, values, k);
      frames := frames + [values[..]];
      k := k + 1;
    }
    FramesIndex(n);
  }
}
