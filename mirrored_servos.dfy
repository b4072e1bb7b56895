/** The PCA9685 servo example for the STM32F3 Discovery: one pulse length sweeps
    up and down by one between `servo_min` and `servo_max`; channel 0 gets it and
    channel 1 its mirror image, so the two servos turn in opposite directions. */
module MirroredServos {
  import opened MachineInts

  const ServoMin: u16 := 130
  const ServoMax: u16 := 610

  /** The loop variables `current` and `factor`. */
  datatype SweepState = SweepState(current: u16, factor: i16)

  /** The off-values written on one iteration, to channel 0 and channel 1. */
  datatype OffValues = OffValues(c0: u16, c1: u16)

  /** `servo_min + (servo_max - current)` in `u16` arithmetic (wrapping as in a
      release build); within the sweep nothing wraps and the two channels add
      up to `servo_min + servo_max`. */
  function Mirror(current: u16): (c1: u16)
    ensures current <= ServoMax ==> c1 == ServoMin + ServoMax - current
    ensures ServoMin <= current <= ServoMax ==> ServoMin <= c1 <= ServoMax
  {
    (ServoMin + (ServoMax - current) % 0x1_0000) % 0x1_0000
  }

  /** The update at the end of an iteration: turn exactly at either end, then
      move by the factor. */
  function SweepStep(s: SweepState): (r: SweepState)
  {
    var factor: i16 := if s.current == ServoMax then -1 else if s.current == ServoMin then 1 else s.factor;
    SweepState(AddSigned(s.current, factor), factor)
  }

  /** Number of iterations of one full sweep, `2 * (servo_max - servo_min)`. */
  const Period: nat := 960

  /** How far phase `j` of the sweep is above `servo_min`: up for 480
      iterations, then down for 480. */
  function Triangle(j: nat): (d: nat)
    requires j < Period
    ensures d <= 480
  {
    if j <= 480 then j else Period - j
  }

  /** The direction the sweep is moving in on arrival at phase `j`. */
  function Direction(j: nat): (f: i16)
    requires j < Period
  {
    if 1 <= j <= 480 then 1 else -1
  }

  function NextPhase(j: nat): (k: nat)
    requires j < Period
    ensures k < Period
  {
    if j == Period - 1 then 0 else j + 1
  }

  /** A state at phase `j`; at phase 0 (`current == servo_min`) the factor is
      about to be reset, so it may be either. */
  ghost predicate InPhase(s: SweepState, j: nat)
    requires j < Period
  {
    s.current == ServoMin + Triangle(j) && (s.factor == Direction(j) || (j == 0 && s.factor == 1))
  }

  /** One iteration moves the sweep to the next phase: the turn tests are met
      exactly, since each step is by one and starts at `servo_min`. */
  lemma StepPhase(s: SweepState, j: nat)
    requires j < Period && InPhase(s, j)
    ensures InPhase(SweepStep(s), NextPhase(j))
  {
  }

  /** The phase at iteration `k`. */
  function PhaseAt(k: nat): (j: nat)
    ensures j < Period
  {
    if k == 0 then 0 else NextPhase(PhaseAt(k - 1))
  }

  lemma NextPhaseMod(m: nat)
    ensures NextPhase(m % Period) == (m + 1) % Period
  {
  }

  lemma {:induction false} PhaseAtMod(k: nat)
    ensures PhaseAt(k) == k % Period
  {
    if k > 0 {
      PhaseAtMod(k - 1);
      NextPhaseMod(k - 1);
    }
  }

  /** The reference closed form: the channel-0 value of iteration `k` is a
      triangle wave with period 960 between `servo_min` and `servo_max`. */
  function Position(k: nat): (p: u16)
    ensures ServoMin <= p <= ServoMax
  {
    ServoMin + Triangle(k % Period)
  }

  lemma PositionPeriodic(k: nat)
    ensures Position(k + Period) == Position(k)
    ensures Position(k) == ServoMin <==> k % Period == 0
    ensures Position(k) == ServoMax <==> k % Period == 480
  {
    assert (k + Period) % Period == k % Period;
  }

  /** `n` iterations of the main loop: the off-values written to channels 0
      and 1 on each. */
  method Sweep(n: nat) returns (writes: seq<OffValues>)
    ensures |writes| == n
    ensures forall k :: 0 <= k < n ==> writes[k] == OffValues(Position(k), Mirror(Position(k)))
  {
    var current := ServoMin;
    var factor: i16 := 1;
    writes := [];
    var k := 0;
    while k < n
      invariant 0 <= k <= n
      invariant InPhase(SweepState(current, factor), PhaseAt(k))
      invariant |writes| == k
      invariant forall j :: 0 <= j < k ==> writes[j] == OffValues(Position(j), Mirror(Position(j)))
    {
      PhaseAtMod(k);
      StepPhase(SweepState(current, factor), PhaseAt(k));
      ghost var next := SweepStep(SweepState(current, factor));
      writes := writes + [OffValues(current, Mirror(current))];
      if current == ServoMax {
        factor := -1;
      } else if current == ServoMin {
        factor := 1;
      }
      current := AddSigned(current, factor);
      assert SweepState(current, factor) == next;
      k := k + 1;
    }
  }
}
