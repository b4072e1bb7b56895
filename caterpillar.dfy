/** The PCF8574 "caterpillar": a single lit LED walking up and down the eight
    outputs of the expander.  `OutputStatus` holds the output byte and the
    direction; each step shifts the byte by one bit, turning at bit 6 going up
    and at bit 1 going down. */
module Caterpillar {
  import opened MachineInts
  import opened Options

  datatype Direction = Up | Down

  /** The `(status, direction)` fields of an `OutputStatus`. */
  datatype Walker = Walker(status: u8, direction: Direction)

  /** `OutputStatus::new()`. */
  const New := Walker(1, Up)

  /** One step (`next` in the newer copies, `increment` in the older one):
      `status <<= 1` on a `u8` drops the bit shifted out, `status >>= 1`
      halves it. */
  function Shift(w: Walker): (r: Walker)
  {
    match w.direction
    case Up => Walker((w.status * 2) % 0x100, if w.status == 64 then Down else Up)
    case Down => Walker(w.status / 2, if w.status == 2 then Up else Down)
  }

  // ------------------------------------------------------- Exactly one bit

  function Pow2(e: nat): (p: nat)
    ensures p >= 1
  {
    if e == 0 then 1 else 2 * Pow2(e - 1)
  }

  /** The number of bits set in `x`. */
  function PopCount(x: nat): nat
  {
    if x == 0 then 0 else x % 2 + PopCount(x / 2)
  }

  lemma {:induction false} PopCountPow2(e: nat)
    ensures PopCount(Pow2(e)) == 1
  {
    if e > 0 {
      PopCountPow2(e - 1);
      assert Pow2(e) % 2 == 0 && Pow2(e) / 2 == Pow2(e - 1);
    }
  }

  /** A number with exactly one bit set is a power of two. */
  lemma {:induction false} PopCountOneIsPow2(x: nat) returns (e: nat)
    requires PopCount(x) == 1
    ensures x == Pow2(e)
    decreases x
  {
    if x % 2 == 1 {
      assert PopCount(x / 2) == 0;
      ZeroPopCount(x / 2);
      e := 0;
    } else {
      var d := PopCountOneIsPow2(x / 2);
      e := d + 1;
    }
  }

  lemma ZeroPopCount(x: nat)
    requires PopCount(x) == 0
    ensures x == 0
  {
  }

  lemma {:induction false} Pow2Grows(e: nat)
    ensures e >= 8 ==> Pow2(e) >= 0x100
  {
    if e > 8 {
      Pow2Grows(e - 1);
    }
  }

  /** The LED patterns with one LED lit: the eight single-bit bytes. */
  predicate OneBit(x: u8)
  {
    x in {1, 2, 4, 8, 16, 32, 64, 128}
  }

  lemma PopCountOneIsOneBit(x: u8)
    requires PopCount(x) == 1
    ensures OneBit(x)
  {
    var e := PopCountOneIsPow2(x);
    Pow2Grows(e);
    if e == 0 {} else if e == 1 {} else if e == 2 {} else if e == 3 {}
    else if e == 4 {} else if e == 5 {} else if e == 6 {} else {
      assert e == 7;
    }
  }

  lemma OneBitPopCount(x: u8)
    requires OneBit(x)
    ensures PopCount(x) == 1
  {
  }

  /** The bytes with exactly one bit set are the eight `OneBit` bytes. */
  lemma SingleBitBytes(x: u8)
    ensures PopCount(x) == 1 <==> OneBit(x)
  {
    if PopCount(x) == 1 {
      PopCountOneIsOneBit(x);
    }
    if OneBit(x) {
      OneBitPopCount(x);
    }
  }

  /** The walker invariant: exactly one LED lit, and it can move on in its
      direction without leaving the byte. */
  ghost predicate Inv(w: Walker)
  {
    OneBit(w.status)
    && (w.direction == Up ==> w.status <= 64)
    && (w.direction == Down ==> w.status >= 2)
  }

  lemma NewInv()
    ensures Inv(New)
  {
  }

  /** A step keeps the invariant: going up the shift never pushes the bit out
      of the byte (the turn comes at 64), going down it never reaches 0 (the
      turn comes at 2). */
  lemma ShiftKeepsInv(w: Walker)
    requires Inv(w)
    ensures Inv(Shift(w))
    ensures w.direction == Up ==> Shift(w).status == 2 * w.status
    ensures w.direction == Down ==> 2 * Shift(w).status == w.status
  {
    var x := w.status;
    assert x == 1 || x == 2 || x == 4 || x == 8 || x == 16 || x == 32 || x == 64 || x == 128;
    if w.direction == Up {
      assert x * 2 < 0x100 && Shift(w).status == x * 2;
    }
  }

  /** The direction turns exactly on the 64 to 128 shift and on the 2 to 1
      shift. */
  lemma TurnsExactly(w: Walker)
    requires Inv(w)
    ensures Shift(w).direction != w.direction <==>
      (w.direction == Up && w.status == 64) || (w.direction == Down && w.status == 2)
    ensures Shift(w).direction != w.direction ==> Shift(w).status in {1, 128}
  {
  }

  // ------------------------------------------------------------ The pattern

  /** The byte at phase `j` of the walk from `new()`: 1, 2, ..., 128, 64, ..., 2. */
  function Pattern(j: nat): (b: u8)
    requires j < 14
  {
    [1, 2, 4, 8, 16, 32, 64, 128, 64, 32, 16, 8, 4, 2][j]
  }

  /** The walker at phase `j`: moving up until it reaches 128. */
  function PhaseWalker(j: nat): (w: Walker)
    requires j < 14
  {
    Walker(Pattern(j), if j < 7 then Up else Down)
  }

  /** Every phase satisfies the invariant. */
  lemma PhaseInv(j: nat)
    requires j < 14
    ensures Inv(PhaseWalker(j))
  {
  }

  lemma PhaseStep(j: nat)
    requires j < 14
    ensures Shift(PhaseWalker(j)) == PhaseWalker(if j == 13 then 0 else j + 1)
  {
  }

  /** The walker after `k` steps from `new()`. */
  function WalkerAfter(k: nat): Walker
  {
    if k == 0 then New else Shift(WalkerAfter(k - 1))
  }

  /** The walk is periodic: after `k` steps it is at phase `k % 14`. */
  lemma {:induction false} WalkerClosedForm(k: nat)
    ensures WalkerAfter(k) == PhaseWalker(k % 14)
  {
    if k > 0 {
      WalkerClosedForm(k - 1);
      PhaseStep((k - 1) % 14);
      NextPhaseMod(k - 1);
    }
  }

  lemma NextPhaseMod(m: nat)
    ensures (if m % 14 == 13 then 0 else m % 14 + 1) == (m + 1) % 14
  {
  }

  // --------------------------------------------------------------- Objects

  /** `OutputStatus` of the Blue Pill and the STM32F3 Discovery example, an
      iterator. */
  class OutputStatus {
    var status: u8
    var direction: Direction

    function State(): Walker
      reads this
    {
      Walker(status, direction)
    }

    /** `OutputStatus::new()`. */
    constructor ()
      ensures State() == New
    {
      status, direction := 1, Up;
    }

    /** `next`: one step, then `Some` of the new byte. */
    method Next() returns (s: Option<u8>)
      modifies this
      ensures State() == Shift(old(State()))
      ensures s == Some(status)
    {
      match direction {
        case Up =>
          if status == 64 {
            direction := Down;
          }
          status := (status * 2) % 0x100;
        case Down =>
          if status == 2 {
            direction := Up;
          }
          status := status / 2;
      }
      s := Some(status);
    }
  }

  /** `n` iterations of the newer main loops: the bytes sent to the
      expander, 2, 4, ..., 128, 64, ..., 2, 1 and again. */
  method Run(n: nat) returns (writes: seq<u8>)
    ensures |writes| == n
    ensures forall k :: 0 <= k < n ==> writes[k] == Pattern((k + 1) % 14)
  {
    var outputStatus := new OutputStatus();
    writes := [];
    var k := 0;
    while k < n
      invariant 0 <= k <= n
      invariant outputStatus.State() == WalkerAfter(k)
      invariant |writes| == k
      invariant forall j :: 0 <= j < k ==> writes[j] == Pattern((j + 1) % 14)
    {
      var next := outputStatus.Next();
      if next.Some? {
        writes := writes + [next.value];
      }
      WalkerClosedForm(k + 1);
      k := k + 1;
    }
  }

  /** `OutputStatus` of the older STM32F3 Discovery example, with an explicit
      `increment` and `get_status`. */
  class LegacyOutputStatus {
    var status: u8
    var direction: Direction

    function State(): Walker
      reads this
    {
      Walker(status, direction)
    }

    /** `OutputStatus::new()`. */
    constructor ()
      ensures State() == New
    {
      status, direction := 1, Up;
    }

    /** `increment`: one step, nothing returned. */
    method Increment()
      modifies this
      ensures State() == Shift(old(State()))
    {
      match direction {
        case Up =>
          if status == 64 {
            direction := Down;
          }
          status := (status * 2) % 0x100;
        case Down =>
          if status == 2 {
            direction := Up;
          }
          status := status / 2;
      }
    }

    /** `get_status`: reads the byte; a function, so it changes nothing. */
    function GetStatus(): u8
      reads this
    {
      status
    }
  }

  /** `n` iterations of the older main loop, which sends the byte before
      stepping: 1, 2, ..., 128, 64, ..., 2 and again, as its doc comment
      says. */
  method RunLegacy(n: nat) returns (writes: seq<u8>)
    ensures |writes| == n
    ensures forall k :: 0 <= k < n ==> writes[k] == Pattern(k % 14)
  {
    var outputStatus := new LegacyOutputStatus();
    writes := [];
    var k := 0;
    while k < n
      invariant 0 <= k <= n
      invariant outputStatus.State() == WalkerAfter(k)
      invariant |writes| == k
      invariant forall j :: 0 <= j < k ==> writes[j] == Pattern(j % 14)
    {
      WalkerClosedForm(k);
      writes := writes + [outputStatus.GetStatus()];
      outputStatus.Increment();
      k := k + 1;
    }
  }
}
