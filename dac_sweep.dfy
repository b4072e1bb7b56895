/** The MCP4921 examples: the main loop sends a 12-bit DAC value, reads it back
    through input A0 of an ADS1115, displays the reading shifted right by 5,
    and then raises the value by 255, starting again from 0 once it is no
    longer below `1 << 12`. */
module DacSweep {
  import opened MachineInts

  /** `1 << 12`: the DAC takes 12-bit values. */
  const DacLimit: nat := 4096

  /** The update at the end of an iteration: `position += 255` on a `u16`
      (wrapping as in a release build), then the reset.  Whatever `p` was,
      the new value is a valid DAC value. */
  function DacNext(p: u16): (q: u16)
    ensures q < DacLimit
    ensures p + 255 < DacLimit ==> q == p + 255
    ensures DacLimit <= p + 255 < 0x1_0000 ==> q == 0
  {
    var raised := (p + 255) % 0x1_0000;
    if raised >= DacLimit then 0 else raised
  }

  /** The reference closed form: on iteration `k` the DAC is sent
      `255 * (k mod 17)`, i.e. 0, 255, ..., 4080 and again. */
  function DacPosition(k: nat): (p: u16)
    ensures p < DacLimit && p % 255 == 0 && p <= 4080
  {
    (k % 17) * 255
  }

  function DacAt(k: nat): u16
  {
    if k == 0 then 0 else DacNext(DacAt(k - 1))
  }

  lemma DacStep(k: nat)
    ensures DacNext(DacPosition(k)) == DacPosition(k + 1)
  {
    if k % 17 == 16 {
      assert (k + 1) % 17 == 0;
    } else {
      assert (k + 1) % 17 == k % 17 + 1;
    }
  }

  lemma {:induction false} DacClosedForm(k: nat)
    ensures DacAt(k) == DacPosition(k)
  {
    if k > 0 {
      DacClosedForm(k - 1);
      DacStep(k - 1);
    }
  }

  /** The value gets only as far as 4080 and resets to 0 right after it: a
      cycle of 17 values. */
  lemma DacPeriodic(k: nat)
    ensures DacPosition(k + 17) == DacPosition(k)
    ensures DacPosition(k) == 0 <==> k % 17 == 0
    ensures DacPosition(k + 1) == 0 <==> DacPosition(k) == 4080
  {
    assert (k + 17) % 17 == k % 17;
    DacStep(k);
  }

  /** What one iteration does: the value sent to the DAC and the reading
      displayed. */
  datatype DacFrame = DacFrame(sent: u16, shown: i16)

  /** The main loop, one iteration per ADS1115 reading. */
  method Sweep(readings: seq<i16>) returns (frames: seq<DacFrame>)
    ensures |frames| == |readings|
    ensures forall k :: 0 <= k < |readings| ==>
      frames[k] == DacFrame(DacPosition(k), ShiftRight5(readings[k]))
  {
    var position: u16 := 0;
    frames := [];
    var k := 0;
    while k < |readings|
      invariant 0 <= k <= |readings|
      invariant position == DacAt(k)
      invariant |frames| == k
      invariant forall j :: 0 <= j < k ==> frames[j] == DacFrame(DacPosition(j), ShiftRight5(readings[j]))
    {
      DacClosedForm(k);
      var valueCh0 := ShiftRight5(readings[k]);
      frames := frames + [DacFrame(position, valueCh0)];
      position := (position + 255) % 0x1_0000;
      if position >= DacLimit {
        position := 0;
      }
      k := k + 1;
    }
  }
}
