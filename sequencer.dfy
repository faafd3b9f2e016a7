/** The step sequencer of cell/sequencer.h: 16 steps, each held for `length` calls of
    `process_sequence`, with a gate and a note per step. */
module Sequencer {
  import opened Numeric

  const STEPS: int := 16

  /** The counters of a sequencer: calls spent in the current step and the step. */
  datatype Position = Position(departed: int, current: int)

  /** `process_sequence`: count the call; when the count hits `length` exactly, move to
      the next step (wrapping at 16) and restart the count. */
  function Step(p: Position, length: int): (q: Position)
    ensures q.departed == 0 || q.departed == p.departed + 1
    ensures q.current != p.current ==> q.departed == 0 && p.departed + 1 == length
    ensures 0 <= p.current < STEPS ==> 0 <= q.current < STEPS
  {
    var d := p.departed + 1;
    if d == length then
      Position(0, if p.current + 1 == STEPS then 0 else p.current + 1)
    else
      Position(d, p.current)
  }

  /** The counters after n calls. */
  function Run(p: Position, length: int, n: nat): (q: Position)
    ensures 0 <= p.current < STEPS ==> 0 <= q.current < STEPS
    ensures length >= 1 && 0 <= p.departed < length ==> 0 <= q.departed < length
    decreases n
  {
    if n == 0 then p else Run(Step(p, length), length, n - 1)
  }

  /** With `length >= 1`, calls keep both counters in range. */
  lemma StepInRange(p: Position, length: int)
    requires length >= 1 && 0 <= p.departed < length && 0 <= p.current < STEPS
    ensures 0 <= Step(p, length).departed < length && 0 <= Step(p, length).current < STEPS
  {
  }

  /** Running m then n calls is running m + n calls. */
  lemma {:induction false} RunAdd(p: Position, length: int, m: nat, n: nat)
    ensures Run(p, length, m + n) == Run(Run(p, length, m), length, n)
    decreases m
  {
    if m > 0 {
      RunAdd(Step(p, length), length, m - 1, n);
    }
  }

  /** One more call at the end of a run. */
  lemma {:induction false} RunSnoc(p: Position, length: int, n: nat)
    ensures Run(p, length, n + 1) == Step(Run(p, length, n), length)
  {
    RunAdd(p, length, n, 1);
  }

  /** From `init_sequence` (both counters 0) and `length >= 1`, after n calls the count is
      n mod length and the step is (n div length) mod 16. */
  lemma {:induction false} RunFromInit(length: int, n: nat)
    requires length >= 1
    ensures Run(Position(0, 0), length, n) == Position(n % length, (n / length) % STEPS)
    decreases n
  {
    if n > 0 {
      RunFromInit(length, n - 1);
      RunSnoc(Position(0, 0), length, n - 1);
      StepFromCounts(length, n - 1);
    }
  }

  /** One call from the counters of m calls gives the counters of m + 1 calls. */
  lemma StepFromCounts(length: int, m: nat)
    requires length >= 1
    ensures Step(Position(m % length, (m / length) % STEPS), length)
              == Position((m + 1) % length, ((m + 1) / length) % STEPS)
  {
    var n := m + 1;
    var q, r := m / length, m % length;
    if r + 1 == length {
      assert n == (q + 1) * length + 0;
      DivModUnique(n, length, q + 1, 0);
      StepWraps(q);
      assert Step(Position(r, q % STEPS), length) == Position(0, (q + 1) % STEPS);
    } else {
      assert n == q * length + (r + 1);
      DivModUnique(n, length, q, r + 1);
      assert Step(Position(r, q % STEPS), length) == Position(r + 1, q % STEPS);
    }
  }

  /** Moving to the next step, wrapping at 16, is adding one modulo 16. */
  lemma StepWraps(q: int)
    ensures (if q % STEPS + 1 == STEPS then 0 else q % STEPS + 1) == (q + 1) % STEPS
  {
  }

  /** The pattern repeats every 16 * length calls: after that many calls from init the
      sequencer is back at step 0 with count 0, and any later position recurs. */
  lemma SequencePeriod(length: int, n: nat)
    requires length >= 1
    ensures Run(Position(0, 0), length, STEPS * length) == Position(0, 0)
    ensures Run(Position(0, 0), length, n + STEPS * length) == Run(Position(0, 0), length, n)
  {
    RunFromInit(length, STEPS * length);
    WholePeriods(length, 0);
    RunFromInit(length, n);
    RunFromInit(length, n + STEPS * length);
    WholePeriods(length, n);
    StepWrapsAfterPeriod(n / length);
  }

  /** Adding 16 * length calls adds 16 to the quotient and keeps the remainder. */
  lemma WholePeriods(length: int, n: nat)
    requires length >= 1
    ensures (n + STEPS * length) / length == n / length + STEPS
    ensures (n + STEPS * length) % length == n % length
  {
    var q, r := n / length, n % length;
    assert n + STEPS * length == (q + STEPS) * length + r;
    DivModUnique(n + STEPS * length, length, q + STEPS, r);
  }

  lemma StepWrapsAfterPeriod(q: int)
    ensures (q + STEPS) % STEPS == q % STEPS
  {
  }

  /** The step test is `==`, so once the count is at or past `length` (in particular
      whenever `length <= 0`) the step never changes again and the count just grows. */
  lemma {:induction false} StuckPastLength(p: Position, length: int, n: nat)
    requires p.departed >= length
    ensures Run(p, length, n) == Position(p.departed + n, p.current)
    decreases n
  {
    if n > 0 {
      StuckPastLength(Step(p, length), length, n - 1);
    }
  }

  /** The `sequencer` struct. */
  class StepSequencer {
    const gate: array<int>
    const note: array<real>
    var departed: int
    var length: int
    var current: int

    ghost predicate Valid()
      reads this
    {
      gate.Length == STEPS && note.Length == STEPS
    }

    function Counters(): Position
      reads this
    {
      Position(departed, current)
    }

    /** `init_sequence(o, l)`; the step contents are left as they are. */
    constructor (gates: seq<int>, notes: seq<real>, l: int)
      requires |gates| == STEPS && |notes| == STEPS
      ensures Valid() && fresh(gate) && fresh(note)
      ensures gate[..] == gates && note[..] == notes
      ensures departed == 0 && current == 0 && length == l
    {
      gate := new int[STEPS](k requires 0 <= k < STEPS => gates[k]);
      note := new real[STEPS](k requires 0 <= k < STEPS => notes[k]);
      departed, current, length := 0, 0, l;
    }

    /** `init_sequence` on an existing sequencer. */
    method Init(l: int)
      modifies this
      ensures departed == 0 && current == 0 && length == l
    {
      departed, current, length := 0, 0, l;
    }

    /** `process_sequence` */
    method Process()
      modifies this`departed, this`current
      ensures Counters() == Step(old(Counters()), length)
    {
      departed := departed + 1;
      if departed == length {
        current := current + 1;
        if current == STEPS {
          current := 0;
        }
        departed := 0;
      }
    }

    /** `get_gate`: the gate of the current step. */
    function Gate(): (g: int)
      reads this, gate
      requires Valid() && 0 <= current < STEPS
      ensures g == gate[current]
    {
      gate[current]
    }

    /** `get_note`: the note of the current step, converted to `int` (toward zero). */
    function Note(): (n: int)
      reads this, note
      requires Valid() && 0 <= current < STEPS
      ensures note[current] >= 0.0 ==> n as real <= note[current] < n as real + 1.0
      ensures note[current] < 0.0 ==> n as real - 1.0 < note[current] <= n as real
    {
      Trunc(note[current])
    }
  }
}
