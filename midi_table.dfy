/** The MIDI note sequencer of the AD9833 players for the STM32F3 Discovery and
    the STM32F1 Blue Pill (the two copies of `MidiTable` are identical).

    Each table row is `(tone, note_duration, silence_duration)`: the MIDI number
    is played for `note_duration` ticks and followed by `silence_duration` ticks
    of MIDI number 0.  After the last row the table starts again at row 0.

    The sequencer is stated for any table `t` whose rows each sound for at least
    one tick; the program's table `Notes` is one (`NotesWellFormed`). */
module MidiTable {
  import opened MachineInts
  import opened Options
  import opened FrequencyRegisters

  datatype Entry = Entry(tone: u32, noteDuration: nat, silenceDuration: nat)

  /** Ticks that one row lasts. */
  function Total(e: Entry): nat
  {
    e.noteDuration + e.silenceDuration
  }

  /** A row that sounds for at least one tick. */
  type SoundingEntry = e: Entry | e.noteDuration >= 1 witness Entry(0, 1, 0)

  /** A row of the table as written in the source. */
  function Row(tone: u32, noteDuration: nat, silenceDuration: nat): (e: SoundingEntry)
    requires noteDuration >= 1
    ensures e.tone == tone && e.noteDuration == noteDuration && e.silenceDuration == silenceDuration
  {
    Entry(tone, noteDuration, silenceDuration)
  }

  /** `MidiTable::NOTES`: the final part of Beethoven's ninth symphony. */
  const Notes: seq<SoundingEntry> := [
      Row(76, 4, 1), Row(76, 4, 1), Row(77, 4, 1), Row(79, 4, 1),
      Row(79, 4, 1), Row(77, 4, 1), Row(76, 4, 1), Row(74, 4, 1),
      Row(72, 4, 1), Row(72, 4, 1), Row(74, 4, 1), Row(76, 4, 1),
      Row(76, 4, 4), Row(74, 2, 1), Row(74, 6, 4), Row(76, 4, 1),
      Row(76, 4, 1), Row(77, 4, 1), Row(79, 4, 1), Row(79, 4, 1),
      Row(77, 4, 1), Row(76, 4, 1), Row(74, 4, 1), Row(72, 4, 1),
      Row(72, 4, 1), Row(74, 4, 1), Row(76, 4, 1), Row(74, 4, 4),
      Row(72, 2, 1), Row(72, 6, 4), Row(74, 4, 1), Row(74, 4, 1),
      Row(76, 4, 1), Row(72, 4, 1), Row(74, 4, 1), Row(76, 2, 1),
      Row(77, 2, 1), Row(76, 4, 1), Row(72, 4, 1), Row(74, 4, 1),
      Row(76, 2, 1), Row(77, 2, 1), Row(76, 4, 1), Row(74, 4, 1),
      Row(72, 4, 1), Row(74, 4, 1), Row(67, 6, 2), Row(76, 4, 1),
      Row(76, 4, 1), Row(77, 4, 1), Row(79, 4, 1), Row(79, 4, 1),
      Row(77, 4, 1), Row(76, 4, 1), Row(74, 4, 1), Row(72, 4, 1),
      Row(72, 4, 1), Row(74, 4, 1), Row(76, 4, 1), Row(74, 6, 2),
      Row(72, 2, 1), Row(72, 6, 10)
    ]

  /** The table is not empty and every row sounds for at least one tick. */
  ghost predicate WellFormed(t: seq<Entry>)
  {
    |t| > 0 && forall i :: 0 <= i < |t| ==> t[i].noteDuration >= 1
  }

  lemma NotesWellFormed()
    ensures |Notes| == 62 && WellFormed(Notes)
  {
  }

  /** The `(position, duration_counter)` pair of a `MidiTable`. */
  datatype TableState = TableState(position: nat, durationCounter: nat)

  /** `MidiTable::default()`. */
  const Start := TableState(0, 0)

  /** The state invariant of the sequencer: the position indexes the table and
      the counter has not run past the current row. */
  ghost predicate Inv(t: seq<Entry>, s: TableState)
  {
    s.position < |t| && s.durationCounter <= Total(t[s.position])
  }

  /** The counter is in the silence window of the current row. */
  predicate InSilence(t: seq<Entry>, s: TableState)
    requires s.position < |t|
  {
    t[s.position].noteDuration <= s.durationCounter < Total(t[s.position])
  }

  /** One call of `MidiTable::next`: the new state and the MIDI number emitted. */
  function Step(t: seq<Entry>, s: TableState): (r: (TableState, u32))
    requires s.position < |t|
    ensures r.0.position < |t|
    ensures InSilence(t, s) ==> r.1 == 0 && r.0 == TableState(s.position, s.durationCounter + 1)
    ensures !InSilence(t, s) ==> r.1 == t[r.0.position].tone
  {
    if InSilence(t, s) then
      (TableState(s.position, s.durationCounter + 1), 0)
    else if s.durationCounter >= Total(t[s.position]) then
      var next := TableState((s.position + 1) % |t|, 1);
      (next, t[next.position].tone)
    else
      (TableState(s.position, s.durationCounter + 1), t[s.position].tone)
  }

  /** `Step` keeps the invariant: the position stays inside the table and the
      counter never exceeds the current row's `note_duration + silence_duration`. */
  lemma StepKeepsInv(t: seq<Entry>, s: TableState)
    requires WellFormed(t) && Inv(t, s)
    ensures Inv(t, Step(t, s).0)
  {
    if !InSilence(t, s) && s.durationCounter >= Total(t[s.position]) {
      var p := (s.position + 1) % |t|;
      assert t[p].noteDuration >= 1;
    }
  }

  /** The state after row `p` has run out. */
  function EndOf(t: seq<Entry>, p: nat): (s: TableState)
    requires p < |t|
    ensures Inv(t, s)
  {
    TableState(p, Total(t[p]))
  }

  /** Once a row has run out, the next call moves to the following row (row 0
      after the last one), sets the counter to 1 and emits the new row's tone. */
  lemma AdvanceStep(t: seq<Entry>, p: nat)
    requires p < |t|
    ensures Step(t, EndOf(t, p)).0 == TableState((p + 1) % |t|, 1)
    ensures Step(t, EndOf(t, p)).1 == t[(p + 1) % |t|].tone
    ensures p == |t| - 1 ==> Step(t, EndOf(t, p)).0 == TableState(0, 1)
  {
  }

  /** The MIDI numbers of `n` successive calls starting in state `s`. */
  function Outputs(t: seq<Entry>, s: TableState, n: nat): (out: seq<u32>)
    requires s.position < |t|
    ensures |out| == n
    decreases n
  {
    if n == 0 then [] else [Step(t, s).1] + Outputs(t, Step(t, s).0, n - 1)
  }

  /** The state after `n` successive calls starting in state `s`. */
  function After(t: seq<Entry>, s: TableState, n: nat): (r: TableState)
    requires s.position < |t|
    ensures r.position < |t|
    decreases n
  {
    if n == 0 then s else After(t, Step(t, s).0, n - 1)
  }

  /** Running `m` calls and then `n` calls is running `m + n` calls. */
  lemma {:induction false} RunAdditive(t: seq<Entry>, s: TableState, m: nat, n: nat)
    requires s.position < |t|
    ensures Outputs(t, s, m + n) == Outputs(t, s, m) + Outputs(t, After(t, s, m), n)
    ensures After(t, s, m + n) == After(t, After(t, s, m), n)
    decreases m
  {
    if m > 0 {
      RunAdditive(t, Step(t, s).0, m - 1, n);
      assert m + n - 1 == (m - 1) + n;
    }
  }

  /** What one row sounds like: its tone for `note_duration` ticks, then 0 for
      `silence_duration` ticks. */
  function Pattern(e: Entry): (out: seq<u32>)
    ensures |out| == Total(e)
  {
    seq(e.noteDuration, _ => e.tone) + seq(e.silenceDuration, _ => 0)
  }

  /** From counter `c` inside row `p`, the remaining calls of that row emit the
      rest of the row's pattern and leave the row run out. */
  lemma {:induction false} PlaysRest(t: seq<Entry>, p: nat, c: nat)
    requires p < |t| && c <= Total(t[p])
    ensures Outputs(t, TableState(p, c), Total(t[p]) - c) == Pattern(t[p])[c..]
    ensures After(t, TableState(p, c), Total(t[p]) - c) == EndOf(t, p)
    decreases Total(t[p]) - c
  {
    var s := TableState(p, c);
    if c < Total(t[p]) {
      assert Step(t, s).0 == TableState(p, c + 1);
      assert Step(t, s).1 == Pattern(t[p])[c];
      PlaysRest(t, p, c + 1);
      assert Pattern(t[p])[c..] == [Pattern(t[p])[c]] + Pattern(t[p])[c + 1..];
    }
  }

  /** A row that has run out behaves, from the next call on, exactly as a fresh
      start of the following row. */
  lemma EndBehavesAsFresh(t: seq<Entry>, p: nat, n: nat)
    requires WellFormed(t) && p < |t| && n >= 1
    ensures Outputs(t, EndOf(t, p), n) == Outputs(t, TableState((p + 1) % |t|, 0), n)
    ensures After(t, EndOf(t, p), n) == After(t, TableState((p + 1) % |t|, 0), n)
  {
    var q := (p + 1) % |t|;
    assert t[q].noteDuration >= 1;
    assert Step(t, EndOf(t, p)) == Step(t, TableState(q, 0));
  }

  /** The row after row `p`: the `(position + 1) % NOTES.len()` of `next`. */
  function NextRow(t: seq<Entry>, p: nat): (q: nat)
    requires p < |t|
    ensures q < |t|
    ensures q == 0 <==> p == |t| - 1
  {
    if p + 1 == |t| then 0 else p + 1
  }

  /** `NextRow` is the source's modulo advance. */
  lemma NextRowIsModulo(t: seq<Entry>, p: nat)
    requires p < |t|
    ensures NextRow(t, p) == (p + 1) % |t|
  {
  }

  /** The row reached from row `p` after `k` advances. */
  function Later(t: seq<Entry>, p: nat, k: nat): (q: nat)
    requires p < |t|
    ensures q < |t|
    decreases k
  {
    if k == 0 then p else Later(t, NextRow(t, p), k - 1)
  }

  /** Advancing `k < |t|` rows from row 0 reaches row `k`, so advancing `|t|`
      rows from the last row comes back to it. */
  lemma {:induction false} LaterFromZero(t: seq<Entry>, k: nat)
    requires k < |t|
    ensures Later(t, 0, k) == k
  {
    if k > 0 {
      LaterFromZero(t, k - 1);
      LaterSplit(t, 0, k - 1);
    }
  }

  lemma {:induction false} LaterSplit(t: seq<Entry>, p: nat, k: nat)
    requires p < |t|
    ensures Later(t, p, k + 1) == NextRow(t, Later(t, p, k))
    decreases k
  {
    if k > 0 {
      LaterSplit(t, NextRow(t, p), k - 1);
    }
  }

  /** After row `p` has run out, the next row plays its whole pattern. */
  lemma PlaysNextRow(t: seq<Entry>, p: nat)
    requires WellFormed(t) && p < |t|
    ensures Outputs(t, EndOf(t, p), Total(t[NextRow(t, p)])) == Pattern(t[NextRow(t, p)])
    ensures After(t, EndOf(t, p), Total(t[NextRow(t, p)])) == EndOf(t, NextRow(t, p))
  {
    var q := NextRow(t, p);
    assert t[q].noteDuration >= 1;
    NextRowIsModulo(t, p);
    EndBehavesAsFresh(t, p, Total(t[q]));
    PlaysRest(t, q, 0);
  }

  /** The patterns of `k` successive rows starting at row `q`, wrapping. */
  function PlayFrom(t: seq<Entry>, q: nat, k: nat): (out: seq<u32>)
    requires q < |t|
    decreases k
  {
    if k == 0 then [] else Pattern(t[q]) + PlayFrom(t, NextRow(t, q), k - 1)
  }

  /** Ticks that `k` successive rows starting at row `q` last. */
  function LengthFrom(t: seq<Entry>, q: nat, k: nat): (len: nat)
    requires q < |t|
    ensures |PlayFrom(t, q, k)| == len
    decreases k
  {
    if k == 0 then 0 else Total(t[q]) + LengthFrom(t, NextRow(t, q), k - 1)
  }

  /** After row `p` has run out, the next `k` rows play their patterns in order
      (wrapping from the last row to row 0). */
  lemma {:induction false} PlaysRows(t: seq<Entry>, p: nat, k: nat)
    requires WellFormed(t) && p < |t|
    ensures Outputs(t, EndOf(t, p), LengthFrom(t, NextRow(t, p), k)) == PlayFrom(t, NextRow(t, p), k)
    ensures After(t, EndOf(t, p), LengthFrom(t, NextRow(t, p), k)) == EndOf(t, Later(t, p, k))
    decreases k
  {
    var q := NextRow(t, p);
    if k > 0 {
      var first := Total(t[q]);
      var rest := LengthFrom(t, NextRow(t, q), k - 1);
      RunAdditive(t, EndOf(t, p), first, rest);
      PlaysNextRow(t, p);
      PlaysRows(t, q, k - 1);
    }
  }

  /** The whole song: every row's pattern, in table order. */
  function Song(t: seq<Entry>): (out: seq<u32>)
    requires |t| > 0
  {
    PlayFrom(t, 0, |t|)
  }

  function SongLength(t: seq<Entry>): (len: nat)
    requires |t| > 0
  {
    LengthFrom(t, 0, |t|)
  }

  /** From `MidiTable::default()` the first row plays its whole pattern. */
  lemma FirstRow(t: seq<Entry>)
    requires |t| > 0
    ensures Outputs(t, Start, Total(t[0])) == Pattern(t[0])
    ensures After(t, Start, Total(t[0])) == EndOf(t, 0)
  {
    PlaysRest(t, 0, 0);
    assert Pattern(t[0])[0..] == Pattern(t[0]);
  }

  /** The song is the first row's pattern followed by the other rows' patterns. */
  lemma SongSplit(t: seq<Entry>)
    requires |t| > 0
    ensures SongLength(t) == Total(t[0]) + LengthFrom(t, NextRow(t, 0), |t| - 1)
    ensures Song(t) == Pattern(t[0]) + PlayFrom(t, NextRow(t, 0), |t| - 1)
  {
  }

  /** After the first row has run out, the remaining rows play in order. */
  lemma OtherRows(t: seq<Entry>)
    requires WellFormed(t)
    ensures Outputs(t, EndOf(t, 0), LengthFrom(t, NextRow(t, 0), |t| - 1)) == PlayFrom(t, NextRow(t, 0), |t| - 1)
    ensures After(t, EndOf(t, 0), LengthFrom(t, NextRow(t, 0), |t| - 1)) == EndOf(t, |t| - 1)
  {
    PlaysRows(t, 0, |t| - 1);
    LaterFromZero(t, |t| - 1);
  }

  /** From `MidiTable::default()` the first `SongLength(t)` calls emit every row's
      tone for `note_duration` ticks followed by `silence_duration` zero ticks,
      row by row, and leave the last row run out. */
  lemma FirstPass(t: seq<Entry>)
    requires WellFormed(t)
    ensures Outputs(t, Start, SongLength(t)) == Song(t)
    ensures After(t, Start, SongLength(t)) == EndOf(t, |t| - 1)
  {
    var first := Total(t[0]);
    var rest := LengthFrom(t, NextRow(t, 0), |t| - 1);
    SongSplit(t);
    FirstRow(t);
    OtherRows(t);
    RunSplit(t, Start, first, rest, SongLength(t));
  }

  /** `RunAdditive` for a run whose length is given as a sum. */
  lemma RunSplit(t: seq<Entry>, s: TableState, m: nat, n: nat, len: nat)
    requires s.position < |t| && len == m + n
    ensures Outputs(t, s, len) == Outputs(t, s, m) + Outputs(t, After(t, s, m), n)
    ensures After(t, s, len) == After(t, After(t, s, m), n)
  {
    RunAdditive(t, s, m, n);
  }

  /** After the last row the table wraps to row 0 and plays the whole song again,
      so from `default()` the output is the song repeated forever. */
  lemma Wraps(t: seq<Entry>)
    requires WellFormed(t)
    ensures Outputs(t, EndOf(t, |t| - 1), SongLength(t)) == Song(t)
    ensures After(t, EndOf(t, |t| - 1), SongLength(t)) == EndOf(t, |t| - 1)
  {
    PlaysRows(t, |t| - 1, |t|);
    LaterFromZero(t, |t| - 1);
  }

  /** The program's table: from `default()` it plays every row's pattern in
      order, then wraps to row 0 and plays them all again. */
  lemma NotesSong()
    ensures Outputs(Notes, Start, SongLength(Notes)) == Song(Notes)
    ensures After(Notes, Start, SongLength(Notes)) == EndOf(Notes, 61)
    ensures Outputs(Notes, EndOf(Notes, 61), SongLength(Notes)) == Song(Notes)
    ensures After(Notes, EndOf(Notes, 61), SongLength(Notes)) == EndOf(Notes, 61)
  {
    NotesWellFormed();
    FirstPass(Notes);
    Wraps(Notes);
  }

  /** The sequencer object over `Notes`; `Valid()` is the state invariant. */
  class Table {
    var position: nat
    var durationCounter: nat

    function State(): TableState
      reads this
    {
      TableState(position, durationCounter)
    }

    ghost predicate Valid()
      reads this
    {
      Inv(Notes, State())
    }

    /** `MidiTable::default()`. */
    constructor ()
      ensures Valid() && State() == Start
    {
      position, durationCounter := 0, 0;
    }

    /** `MidiTable::next`: always `Some`, 0 in a silence window, otherwise the
        current row's tone. */
    method Next() returns (tone: Option<u32>)
      requires Valid()
      modifies this
      ensures Valid()
      ensures State() == Step(Notes, old(State())).0
      ensures tone == Some(Step(Notes, old(State())).1)
    {
      NotesWellFormed();
      StepKeepsInv(Notes, State());
      var silence: Option<u32> := None;
      var e := Notes[position];
      var totalDuration := e.noteDuration + e.silenceDuration;
      var isInSilence := durationCounter >= e.noteDuration && durationCounter < totalDuration;
      if isInSilence {
        durationCounter := durationCounter + 1;
        silence := Some(0);
      } else if durationCounter >= totalDuration {
        position := (position + 1) % |Notes|;
        durationCounter := 1;
      } else {
        durationCounter := durationCounter + 1;
      }
      tone := if silence.Some? then silence else Some(Notes[position].tone);
    }
  }

  /** One iteration of the player's main loop, the `i`-th from the start:
      the next MIDI number goes into the register not in use, which becomes
      the selected one. */
  method Iteration(table: Table, currentRegister: FrequencyRegister, ghost i: nat)
    returns (write: SynthWrite, ghost tone: u32)
    requires table.Valid() && table.State() == After(Notes, Start, i)
    requires i == 0 ==> currentRegister == F0
    requires i > 0 ==> currentRegister == SelectedAt(i - 1)
    modifies table
    ensures table.Valid() && table.State() == After(Notes, Start, i + 1)
    ensures Outputs(Notes, Start, i + 1) == Outputs(Notes, Start, i) + [tone]
    ensures write == SynthWrite(SelectedAt(i), tone)
  {
    ghost var before := table.State();
    var next := table.Next();
    var midiNumber := next.UnwrapOr(0);
    var opposite := Opposite(currentRegister);
    write := SynthWrite(opposite, midiNumber);
    RunAdditive(Notes, Start, i, 1);
    assert Outputs(Notes, before, 1) == [midiNumber];
    tone := midiNumber;
  }

  /** `n` iterations of the player's main loop, from a default table and register
      `F0`: every iteration writes the next MIDI number into the register not in
      use and switches to it, so the registers alternate F1, F0, F1, ... */
  method PlayLoop(n: nat) returns (writes: seq<SynthWrite>)
    ensures |writes| == n
    ensures forall k :: 0 <= k < n ==>
      writes[k] == SynthWrite(SelectedAt(k), Outputs(Notes, Start, n)[k])
  {
    var currentRegister := F0;
    var table := new Table();
    writes := [];
    ghost var tones: seq<u32> := [];
    var i := 0;
    while i < n
      invariant 0 <= i <= n
      invariant table.Valid() && table.State() == After(Notes, Start, i)
      invariant tones == Outputs(Notes, Start, i)
      invariant |writes| == i
      invariant i == 0 ==> currentRegister == F0
      invariant i > 0 ==> currentRegister == SelectedAt(i - 1)
      invariant forall k :: 0 <= k < i ==> writes[k] == SynthWrite(SelectedAt(k), tones[k])
    {
      var write, tone := Iteration(table, currentRegister, i);
      writes := writes + [write];
      currentRegister := write.register;
      tones := tones + [tone];
      i := i + 1;
    }
  }
}
