/** The MCP41x/MCP42x digital potentiometer examples.  Each main loop keeps a
    `u8` wiper `position`, writes it (and, on a dual MCP42x, `255 - position`
    to the second channel), and then moves it on: by 8 with a reset after 248
    in the examples that also read the two wipers back through an ADS1115,
    by 1 with a wrap after 255 in the plain ones. */
module DigipotSweeps {
  import opened MachineInts

  /** The position written to channel 1 of an MCP42x: `255 - position`, which
      cannot underflow a `u8`.  The two wipers always add up to 255. */
  function Complement(p: u8): (q: u8)
    ensures p + q == 255
  {
    255 - p
  }

  // ------------------------------------------------------ The step-8 sweep

  /** The update at the end of a step-8 iteration: `+= 8` only below 248, so
      the `u8` add never overflows. */
  function CoarseNext(p: u8): (q: u8)
  {
    if p >= 248 then 0 else p + 8
  }

  /** The reference closed form: on iteration `k` the wiper is at
      `8 * (k mod 32)`, a multiple of 8 in `[0, 248]`. */
  function CoarsePosition(k: nat): (p: u8)
    ensures p % 8 == 0 && p <= 248
  {
    (k % 32) * 8
  }

  /** The position on iteration `k`, by running the update from 0. */
  function CoarseAt(k: nat): u8
  {
    if k == 0 then 0 else CoarseNext(CoarseAt(k - 1))
  }

  lemma CoarseStep(k: nat)
    ensures CoarseNext(CoarsePosition(k)) == CoarsePosition(k + 1)
  {
    if k % 32 == 31 {
      assert (k + 1) % 32 == 0;
    } else {
      assert (k + 1) % 32 == k % 32 + 1;
    }
  }

  lemma {:induction false} CoarseClosedForm(k: nat)
    ensures CoarseAt(k) == CoarsePosition(k)
  {
    if k > 0 {
      CoarseClosedForm(k - 1);
      CoarseStep(k - 1);
    }
  }

  /** The sweep has period 32: it resets to 0 after 248, and exactly then;
      channel 1 stays in `[7, 255]`. */
  lemma CoarsePeriodic(k: nat)
    ensures CoarsePosition(k + 32) == CoarsePosition(k)
    ensures CoarsePosition(k) == 0 <==> k % 32 == 0
    ensures CoarsePosition(k + 1) == 0 <==> CoarsePosition(k) == 248
    ensures 7 <= Complement(CoarsePosition(k))
  {
    assert (k + 32) % 32 == k % 32;
    CoarseStep(k);
  }

  /** What one iteration of a dual-channel loop writes: the two wiper
      positions, and the two ADS1115 readings as displayed. */
  datatype DualFrame = DualFrame(ch0: u8, ch1: u8, shown0: i16, shown1: i16)

  /** The step-8 main loop, one iteration per pair of ADS1115 readings (of
      inputs A0 and A1): each reading is displayed shifted right by 5. */
  method CoarseSweep(readings: seq<(i16, i16)>) returns (frames: seq<DualFrame>)
    ensures |frames| == |readings|
    ensures forall k :: 0 <= k < |readings| ==>
      frames[k] == DualFrame(CoarsePosition(k), Complement(CoarsePosition(k)),
                             ShiftRight5(readings[k].0), ShiftRight5(readings[k].1))
  {
    var position: u8 := 0;
    frames := [];
    var k := 0;
    while k < |readings|
      invariant 0 <= k <= |readings|
      invariant position == CoarseAt(k)
      invariant |frames| == k
      invariant forall j :: 0 <= j < k ==>
        frames[j] == DualFrame(CoarsePosition(j), Complement(CoarsePosition(j)),
                               ShiftRight5(readings[j].0), ShiftRight5(readings[j].1))
    {
      CoarseClosedForm(k);
      var valueCh0 := ShiftRight5(readings[k].0);
      var valueCh1 := ShiftRight5(readings[k].1);
      frames := frames + [DualFrame(position, 255 - position, valueCh0, valueCh1)];
      if position >= 248 {
        position := 0;
      } else {
        position := position + 8;
      }
      k := k + 1;
    }
  }

  // ------------------------------------------------------ The step-1 sweep

  /** The update at the end of a step-1 iteration: `+= 1` only below 255, so
      the `u8` add never overflows. */
  function FineNext(p: u8): (q: u8)
  {
    if p == 255 then 0 else p + 1
  }

  /** The reference closed form: on iteration `k` the wiper is at
      `k mod 256`. */
  function FinePosition(k: nat): (p: u8)
  {
    k % 256
  }

  function FineAt(k: nat): u8
  {
    if k == 0 then 0 else FineNext(FineAt(k - 1))
  }

  lemma FineStep(k: nat)
    ensures FineNext(FinePosition(k)) == FinePosition(k + 1)
  {
  }

  lemma {:induction false} FineClosedForm(k: nat)
    ensures FineAt(k) == FinePosition(k)
  {
    if k > 0 {
      FineClosedForm(k - 1);
      FineStep(k - 1);
    }
  }

  /** The step rule: up by exactly one, except 255 wraps to 0. */
  lemma FineSteps(k: nat)
    ensures FinePosition(k) < 255 ==> FinePosition(k + 1) == FinePosition(k) + 1
    ensures FinePosition(k) == 255 ==> FinePosition(k + 1) == 0
  {
  }

  /** Every position is written exactly once in each cycle of 256 iterations:
      within cycle `c`, position `v` is written on iteration `256 * c + v` and
      on no other. */
  lemma FineOncePerCycle(c: nat, j: nat, v: u8)
    requires 256 * c <= j < 256 * c + 256
    ensures FinePosition(j) == v <==> j == 256 * c + v
  {
    var r := j - 256 * c;
    assert j == 256 * c + r && 0 <= r < 256;
    assert j % 256 == r;
  }

  /** The MCP42x main loop without ADC: both channels, mirrored. */
  method MirroredFineSweep(n: nat) returns (writes: seq<(u8, u8)>)
    ensures |writes| == n
    ensures forall k :: 0 <= k < n ==> writes[k] == (FinePosition(k), Complement(FinePosition(k)))
  {
    var position: u8 := 0;
    writes := [];
    var k := 0;
    while k < n
      invariant 0 <= k <= n
      invariant position == FineAt(k)
      invariant |writes| == k
      invariant forall j :: 0 <= j < k ==> writes[j] == (FinePosition(j), Complement(FinePosition(j)))
    {
      FineClosedForm(k);
      writes := writes + [(position, 255 - position)];
      if position == 255 {
        position := 0;
      } else {
        position := position + 1;
      }
      k := k + 1;
    }
  }

  /** The MCP41x main loop: one channel, written with the position before the
      update. */
  method SingleFineSweep(n: nat) returns (writes: seq<u8>)
    ensures |writes| == n
    ensures forall k :: 0 <= k < n ==> writes[k] == FinePosition(k)
  {
    var position: u8 := 0;
    writes := [];
    var k := 0;
    while k < n
      invariant 0 <= k <= n
      invariant position == FineAt(k)
      invariant |writes| == k
      invariant forall j :: 0 <= j < k ==> writes[j] == FinePosition(j)
    {
      FineClosedForm(k);
      writes := writes + [position];
      if position == 255 {
        position := 0;
      } else {
        position := position + 1;
      }
      k := k + 1;
    }
  }
}
