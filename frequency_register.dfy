/** The AD9833 keeps two frequency registers; the MIDI players write the next
    frequency into the register not in use and then switch to it. */
module FrequencyRegisters {

  datatype FrequencyRegister = F0 | F1

  /** `get_opposite`: the register that is not `r`. */
  function Opposite(r: FrequencyRegister): (o: FrequencyRegister)
    ensures o != r
  {
    match r
    case F0 => F1
    case F1 => F0
  }

  /** Flipping twice gives the register back. */
  lemma OppositeInvolution(r: FrequencyRegister)
    ensures Opposite(Opposite(r)) == r
  {
  }

  /** The register selected on iteration `k` (0-based) of a player loop that
      starts from `F0` and flips on every iteration. */
  function SelectedAt(k: nat): (r: FrequencyRegister)
  {
    if k == 0 then Opposite(F0) else Opposite(SelectedAt(k - 1))
  }

  /** The loop alternates: `F1` on even iterations, `F0` on odd ones. */
  lemma {:induction false} SelectedAtParity(k: nat)
    ensures SelectedAt(k) == if k % 2 == 0 then F1 else F0
  {
    if k > 0 {
      SelectedAtParity(k - 1);
    }
  }

  /** One frequency update of a player loop: the register written and then
      selected, and the MIDI number whose frequency is written into it. */
  datatype SynthWrite = SynthWrite(register: FrequencyRegister, midiNumber: int)
}
