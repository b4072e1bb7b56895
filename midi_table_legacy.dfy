/** The older MIDI note sequencer of the AD9833 player for the STM32F3
    Discovery, with two-field rows `(tone, note_duration)`.

    Every row plays its tone for `note_duration` ticks followed by one inserted
    tick of silence; the call that moves to the next row already emits the next
    row's tone.  When the last row is reached the next call starts over at
    `(0, 0)`.  Stated for any non-empty table `t`; `Notes` is the program's. */
module LegacyMidiTable {
  import opened MachineInts
  import opened Options
  import opened FrequencyRegisters

  datatype Entry = Entry(tone: u32, noteDuration: nat)

  /** `MidiTable::NOTES` (69 rows; the last, `(0, 10)`, was meant as a final rest). */
  const Notes: seq<Entry> := [
      Entry(76, 2), Entry(76, 2), Entry(77, 2), Entry(79, 2), Entry(79, 2), Entry(77, 2),
      Entry(76, 2), Entry(74, 2), Entry(72, 2), Entry(72, 2), Entry(74, 2), Entry(76, 2),
      Entry(76, 2), Entry(0, 1), Entry(74, 1), Entry(74, 3), Entry(0, 1), Entry(76, 2),
      Entry(76, 2), Entry(77, 2), Entry(79, 2), Entry(79, 2), Entry(77, 2), Entry(76, 2),
      Entry(74, 2), Entry(72, 2), Entry(72, 2), Entry(74, 2), Entry(76, 2), Entry(74, 2),
      Entry(0, 1), Entry(72, 1), Entry(72, 3), Entry(0, 1), Entry(74, 2), Entry(74, 2),
      Entry(76, 2), Entry(72, 2), Entry(74, 2), Entry(76, 1), Entry(77, 1), Entry(76, 2),
      Entry(72, 2), Entry(74, 2), Entry(76, 1), Entry(77, 1), Entry(76, 2), Entry(74, 2),
      Entry(72, 2), Entry(74, 2), Entry(67, 2), Entry(76, 4), Entry(0, 1), Entry(76, 2),
      Entry(77, 2), Entry(79, 2), Entry(79, 2), Entry(77, 2), Entry(76, 2), Entry(74, 2),
      Entry(72, 2), Entry(72, 2), Entry(74, 2), Entry(76, 2), Entry(74, 2), Entry(0, 1),
      Entry(72, 1), Entry(72, 3), Entry(0, 10)
    ]

  datatype TableState = TableState(position: nat, durationCounter: nat)

  /** `MidiTable::default()`. */
  const Start := TableState(0, 0)

  /** The position indexes the table (it is at most the last index) and the
      counter never exceeds `note_duration + 1`. */
  ghost predicate Inv(t: seq<Entry>, s: TableState)
  {
    s.position < |t| && s.durationCounter <= t[s.position].noteDuration + 1
  }

  /** The call inserts the silence after a note. */
  predicate InsertsSilence(t: seq<Entry>, s: TableState)
    requires s.position < |t|
  {
    s.position != |t| - 1 && s.durationCounter == t[s.position].noteDuration
  }

  /** One call of `MidiTable::next`: the new state and the MIDI number emitted. */
  function Step(t: seq<Entry>, s: TableState): (r: (TableState, u32))
    requires s.position < |t|
    ensures r.0.position < |t|
    ensures InsertsSilence(t, s) ==> r.1 == 0
    ensures !InsertsSilence(t, s) ==> r.1 == t[r.0.position].tone
  {
    var noteDuration := t[s.position].noteDuration;
    if s.position == |t| - 1 then
      (TableState(0, 0), t[0].tone)
    else if s.durationCounter == noteDuration then
      (TableState(s.position, s.durationCounter + 1), 0)
    else if s.durationCounter > noteDuration then
      (TableState(s.position + 1, 0), t[s.position + 1].tone)
    else
      (TableState(s.position, s.durationCounter + 1), t[s.position].tone)
  }

  /** `Step` keeps the invariant: the start-over branch is taken before
      `position + 1` could pass the end of the table. */
  lemma StepKeepsInv(t: seq<Entry>, s: TableState)
    requires Inv(t, s)
    ensures Inv(t, Step(t, s).0)
  {
  }

  /** On the last row the next call resets to `(0, 0)` and emits row 0's tone,
      whatever the counter: the last row is heard on exactly one call. */
  lemma StartsOver(t: seq<Entry>, c: nat)
    requires |t| > 0
    ensures Step(t, TableState(|t| - 1, c)) == (Start, t[0].tone)
  {
  }

  /** Moving on from a row sets the counter to 0 and emits the new row's tone. */
  lemma AdvanceStep(t: seq<Entry>, p: nat)
    requires p + 1 < |t|
    ensures Step(t, TableState(p, t[p].noteDuration + 1)) == (TableState(p + 1, 0), t[p + 1].tone)
  {
  }

  /** The MIDI numbers of `n` successive calls starting in state `s`. */
  function Outputs(t: seq<Entry>, s: TableState, n: nat): (out: seq<u32>)
    requires s.position < |t|
    ensures |out| == n
    decreases n
  {
    if n == 0 then [] else [Step(t, s).1] + Outputs(t, Step(t, s).0, n - 1)
  }

  /** The state after `n` successive calls starting in state `s`. */
  function After(t: seq<Entry>, s: TableState, n: nat): (r: TableState)
    requires s.position < |t|
    ensures r.position < |t|
    decreases n
  {
    if n == 0 then s else After(t, Step(t, s).0, n - 1)
  }

  lemma {:induction false} RunAdditive(t: seq<Entry>, s: TableState, m: nat, n: nat)
    requires s.position < |t|
    ensures Outputs(t, s, m + n) == Outputs(t, s, m) + Outputs(t, After(t, s, m), n)
    ensures After(t, s, m + n) == After(t, After(t, s, m), n)
    decreases m
  {
    if m > 0 {
      RunAdditive(t, Step(t, s).0, m - 1, n);
      assert m + n - 1 == (m - 1) + n;
    }
  }

  /** `RunAdditive` for a run whose length is given as a sum. */
  lemma RunSplit(t: seq<Entry>, s: TableState, m: nat, n: nat, len: nat)
    requires s.position < |t| && len == m + n
    ensures Outputs(t, s, len) == Outputs(t, s, m) + Outputs(t, After(t, s, m), n)
    ensures After(t, s, len) == After(t, After(t, s, m), n)
  {
    RunAdditive(t, s, m, n);
  }

  /** The calls from the start of row `p` to the start of row `p + 1`: the tone
      for `note_duration` ticks, one tick of silence, then the next row's tone. */
  function Segment(t: seq<Entry>, p: nat): (out: seq<u32>)
    requires p + 1 < |t|
    ensures |out| == t[p].noteDuration + 2
  {
    seq(t[p].noteDuration, _ => t[p].tone) + [0, t[p + 1].tone]
  }

  /** Exactly one tick of each segment is the inserted silence, at index
      `note_duration`; all others carry a row's tone. */
  lemma SegmentSilence(t: seq<Entry>, p: nat, i: nat)
    requires p + 1 < |t| && i < t[p].noteDuration + 2
    ensures i < t[p].noteDuration ==> Segment(t, p)[i] == t[p].tone
    ensures i == t[p].noteDuration ==> Segment(t, p)[i] == 0
    ensures i == t[p].noteDuration + 1 ==> Segment(t, p)[i] == t[p + 1].tone
  {
  }

  /** From counter `c` in row `p` (not the last), the calls up to the start of
      row `p + 1` emit the rest of the segment. */
  lemma {:induction false} PlaysRest(t: seq<Entry>, p: nat, c: nat)
    requires p + 1 < |t| && c <= t[p].noteDuration + 1
    ensures Outputs(t, TableState(p, c), t[p].noteDuration + 2 - c) == Segment(t, p)[c..]
    ensures After(t, TableState(p, c), t[p].noteDuration + 2 - c) == TableState(p + 1, 0)
    decreases t[p].noteDuration + 2 - c
  {
    var s := TableState(p, c);
    assert Step(t, s).1 == Segment(t, p)[c];
    if c <= t[p].noteDuration {
      assert Step(t, s).0 == TableState(p, c + 1);
      PlaysRest(t, p, c + 1);
      assert Segment(t, p)[c..] == [Segment(t, p)[c]] + Segment(t, p)[c + 1..];
    } else {
      assert Segment(t, p)[c..] == [Segment(t, p)[c]];
    }
  }

  /** A whole segment, from the start of row `p`. */
  lemma PlaysSegment(t: seq<Entry>, p: nat)
    requires p + 1 < |t|
    ensures Outputs(t, TableState(p, 0), t[p].noteDuration + 2) == Segment(t, p)
    ensures After(t, TableState(p, 0), t[p].noteDuration + 2) == TableState(p + 1, 0)
  {
    PlaysRest(t, p, 0);
    assert Segment(t, p)[0..] == Segment(t, p);
  }

  /** The segments of rows `p .. p + k - 1`. */
  function Segments(t: seq<Entry>, p: nat, k: nat): (out: seq<u32>)
    requires p + k < |t|
    decreases k
  {
    if k == 0 then [] else Segment(t, p) + Segments(t, p + 1, k - 1)
  }

  function SegmentsLength(t: seq<Entry>, p: nat, k: nat): (len: nat)
    requires p + k < |t|
    decreases k
  {
    if k == 0 then 0 else t[p].noteDuration + 2 + SegmentsLength(t, p + 1, k - 1)
  }

  lemma {:induction false} PlaysSegments(t: seq<Entry>, p: nat, k: nat)
    requires p + k < |t|
    ensures Outputs(t, TableState(p, 0), SegmentsLength(t, p, k)) == Segments(t, p, k)
    ensures After(t, TableState(p, 0), SegmentsLength(t, p, k)) == TableState(p + k, 0)
    decreases k
  {
    if k > 0 {
      var first := t[p].noteDuration + 2;
      var rest := SegmentsLength(t, p + 1, k - 1);
      RunSplit(t, TableState(p, 0), first, rest, SegmentsLength(t, p, k));
      PlaysSegment(t, p);
      PlaysSegments(t, p + 1, k - 1);
      assert Segments(t, p, k) == Segment(t, p) + Segments(t, p + 1, k - 1);
      assert After(t, TableState(p, 0), first) == TableState(p + 1, 0);
    }
  }

  /** One period of the output from `default()`: the segments of all rows but
      the last, then the start-over tick that emits row 0's tone again. */
  function Cycle(t: seq<Entry>): (out: seq<u32>)
    requires |t| > 0
  {
    Segments(t, 0, |t| - 1) + [t[0].tone]
  }

  function Period(t: seq<Entry>): (len: nat)
    requires |t| > 0
  {
    SegmentsLength(t, 0, |t| - 1) + 1
  }

  /** From `default()`, `Period(t)` calls emit `Cycle(t)` and return to
      `(0, 0)`, so the output repeats with that period.  The last row appears
      only as the final tone of the last segment: one tick, whatever its
      `note_duration`. */
  lemma Periodic(t: seq<Entry>)
    requires |t| > 0
    ensures Outputs(t, Start, Period(t)) == Cycle(t)
    ensures After(t, Start, Period(t)) == Start
  {
    var body := SegmentsLength(t, 0, |t| - 1);
    ReachesLastRow(t);
    RunSplit(t, Start, body, 1, Period(t));
    LastTick(t);
  }

  /** From `default()` the segments of all rows but the last lead to the start
      of the last row. */
  lemma ReachesLastRow(t: seq<Entry>)
    requires |t| > 0
    ensures Outputs(t, Start, SegmentsLength(t, 0, |t| - 1)) == Segments(t, 0, |t| - 1)
    ensures After(t, Start, SegmentsLength(t, 0, |t| - 1)) == TableState(|t| - 1, 0)
  {
    PlaysSegments(t, 0, |t| - 1);
  }

  /** The one call made on the last row. */
  lemma LastTick(t: seq<Entry>)
    requires |t| > 0
    ensures Outputs(t, TableState(|t| - 1, 0), 1) == [t[0].tone]
    ensures After(t, TableState(|t| - 1, 0), 1) == Start
  {
    OneStep(t, TableState(|t| - 1, 0));
  }

  /** A run of one call is that call. */
  lemma OneStep(t: seq<Entry>, s: TableState)
    requires s.position < |t|
    ensures Outputs(t, s, 1) == [Step(t, s).1]
    ensures After(t, s, 1) == Step(t, s).0
  {
    assert Outputs(t, s, 1) == [Step(t, s).1] + Outputs(t, Step(t, s).0, 0);
  }

  /** For the program's table: the last row `(0, 10)` is reached on one call
      and left on the next, so its ten ticks of rest are never played. */
  lemma FinalRestIsOneTick()
    ensures |Notes| == 69 && Notes[68] == Entry(0, 10)
    ensures Step(Notes, TableState(67, Notes[67].noteDuration + 1)) == (TableState(68, 0), 0)
    ensures Step(Notes, TableState(68, 0)) == (Start, Notes[0].tone)
  {
  }

  /** The sequencer object over `Notes`; `Valid()` is the state invariant. */
  class Table {
    var position: nat
    var durationCounter: nat

    function State(): TableState
      reads this
    {
      TableState(position, durationCounter)
    }

    ghost predicate Valid()
      reads this
    {
      Inv(Notes, State())
    }

    /** `MidiTable::default()`. */
    constructor ()
      ensures Valid() && State() == Start
    {
      position, durationCounter := 0, 0;
    }

    /** `MidiTable::next`: always `Some`, either the inserted silence 0 or the
        tone of the row now current. */
    method Next() returns (tone: Option<u32>)
      requires Valid()
      modifies this
      ensures Valid()
      ensures State() == Step(Notes, old(State())).0
      ensures tone == Some(Step(Notes, old(State())).1)
    {
      StepKeepsInv(Notes, State());
      var silence: Option<u32> := None;
      var noteDuration := Notes[position].noteDuration;
      var shouldStartOver := position == |Notes| - 1;
      if shouldStartOver {
        position := 0;
        durationCounter := 0;
      } else if durationCounter == noteDuration {
        durationCounter := durationCounter + 1;
        silence := Some(0);
      } else if durationCounter > noteDuration {
        position := position + 1;
        durationCounter := 0;
      } else {
        durationCounter := durationCounter + 1;
      }
      tone := if silence.Some? then silence else Some(Notes[position].tone);
    }
  }

  /** One iteration of the player's main loop, the `i`-th from the start:
      the next MIDI number goes into the register not in use, which becomes
      the selected one. */
  method Iteration(table: Table, currentRegister: FrequencyRegister, ghost i: nat)
    returns (write: SynthWrite, ghost tone: u32)
    requires table.Valid() && table.State() == After(Notes, Start, i)
    requires i == 0 ==> currentRegister == F0
    requires i > 0 ==> currentRegister == SelectedAt(i - 1)
    modifies table
    ensures table.Valid() && table.State() == After(Notes, Start, i + 1)
    ensures Outputs(Notes, Start, i + 1) == Outputs(Notes, Start, i) + [tone]
    ensures write == SynthWrite(SelectedAt(i), tone)
  {
    ghost var before := table.State();
    var next := table.Next();
    var midiNumber := next.UnwrapOr(0);
    var opposite := Opposite(currentRegister);
    write := SynthWrite(opposite, midiNumber);
    RunAdditive(Notes, Start, i, 1);
    assert Outputs(Notes, before, 1) == [midiNumber];
    tone := midiNumber;
  }

  /** `n` iterations of the player's main loop, from a default table and register
      `F0`; the registers alternate F1, F0, F1, ... */
  method PlayLoop(n: nat) returns (writes: seq<SynthWrite>)
    ensures |writes| == n
    ensures forall k :: 0 <= k < n ==>
      writes[k] == SynthWrite(SelectedAt(k), Outputs(Notes, Start, n)[k])
  {
    var currentRegister := F0;
    var table := new Table();
    writes := [];
    ghost var tones: seq<u32> := [];
    var i := 0;
    while i < n
      invariant 0 <= i <= n
      invariant table.Valid() && table.State() == After(Notes, Start, i)
      invariant tones == Outputs(Notes, Start, i)
      invariant |writes| == i
      invariant i == 0 ==> currentRegister == F0
      invariant i > 0 ==> currentRegister == SelectedAt(i - 1)
      invariant forall k :: 0 <= k < i ==> writes[k] == SynthWrite(SelectedAt(k), tones[k])
    {
      var write, tone := Iteration(table, currentRegister, i);
      writes := writes + [write];
      currentRegister := write.register;
      tones := tones + [tone];
      i := i + 1;
    }
  }
}
