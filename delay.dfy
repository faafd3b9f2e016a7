/** The feedback delay line of cell/delay.h: a 32768-slot circular buffer with a write
    cursor that is wrapped lazily (on entry to the next call) and one read tap
    `offset` slots behind it, with no interpolation. */
module Delay {
  import opened Utility

  const DELAY_LENGTH: int := 32768

  /** C `roundf` on a real: to the nearest integer, halves away from zero. */
  function Round(x: real): (n: int)
    ensures x - 0.5 <= n as real <= x + 0.5
    ensures x >= 0.0 ==> n >= 0
  {
    if x >= 0.0 then (x + 0.5).Floor else -((-x + 0.5).Floor)
  }

  /** The tap offset `roundf(time*tmax)` the source derives from its `time` parameter.
      For `time` in [0, 1] and `tmax = DELAY_LENGTH` it lies in [0, DELAY_LENGTH]. */
  function TapOffset(time: real, tmax: real): (n: int)
    ensures 0.0 <= time <= 1.0 && tmax == DELAY_LENGTH as real ==> 0 <= n <= DELAY_LENGTH
  {
    OffsetBound(time, tmax);
    Round(time * tmax)
  }

  lemma OffsetBound(time: real, tmax: real)
    ensures 0.0 <= time <= 1.0 && tmax == DELAY_LENGTH as real ==>
              0.0 <= time * tmax <= DELAY_LENGTH as real
  {
    if 0.0 <= time <= 1.0 && tmax == DELAY_LENGTH as real {
      MulNonNegative(time, tmax);
      MulNonNegative(1.0 - time, tmax);
    }
  }

  /** The cursor as `delay_process` uses it: `sample >= DELAY_LENGTH` is reset to 0. */
  function EntryCursor(sample: int): (s: int)
    requires 0 <= sample <= DELAY_LENGTH
    ensures 0 <= s < DELAY_LENGTH
    ensures s == sample % DELAY_LENGTH
  {
    if sample >= DELAY_LENGTH then 0 else sample
  }

  /** The tap index `f = sample - offset`, plus `DELAY_LENGTH` when negative. */
  function TapIndex(s: int, offset: int): (f: int)
    requires 0 <= s < DELAY_LENGTH && 0 <= offset <= DELAY_LENGTH
    ensures 0 <= f < DELAY_LENGTH
    ensures f == (s - offset) % DELAY_LENGTH
    ensures (offset == 0 || offset == DELAY_LENGTH) <==> f == s
  {
    var f := s - offset;
    if f < 0 then f + DELAY_LENGTH else f
  }

  /** Abstract state of the line: buffer contents and the write cursor. */
  datatype Line = Line(data: seq<real>, sample: int)

  predicate ValidLine(l: Line) {
    |l.data| == DELAY_LENGTH && 0 <= l.sample <= DELAY_LENGTH
  }

  /** The value a call stores: the input plus the scaled tap, read before the write. */
  function Written(l: Line, input: real, offset: int, feedback: real): (w: real)
    requires ValidLine(l) && 0 <= offset <= DELAY_LENGTH
    ensures feedback == 0.0 ==> w == input
  {
    input + l.data[TapIndex(EntryCursor(l.sample), offset)] * feedback
  }

  /** The buffer and cursor after one call of `delay_process`: only the slot under the
      entry cursor changes, and the cursor ends one past it. */
  function Advance(l: Line, input: real, offset: int, feedback: real): (l': Line)
    requires ValidLine(l) && 0 <= offset <= DELAY_LENGTH
    ensures ValidLine(l') && 1 <= l'.sample <= DELAY_LENGTH
    ensures l'.sample == EntryCursor(l.sample) + 1
    ensures l'.data == l.data[EntryCursor(l.sample) := Written(l, input, offset, feedback)]
  {
    var s := EntryCursor(l.sample);
    Line(l.data[s := Written(l, input, offset, feedback)], s + 1)
  }

  /** One call of `delay_process`: the new line and the returned sample, the crossfade of
      the stored value (wet) with the input (dry) by `amount`. */
  function Step(l: Line, input: real, offset: int, feedback: real, amount: real): (res: (Line, real))
    requires ValidLine(l) && 0 <= offset <= DELAY_LENGTH
    ensures res.0 == Advance(l, input, offset, feedback)
    ensures res.1 == Written(l, input, offset, feedback) * amount + input * (1.0 - amount)
  {
    (Advance(l, input, offset, feedback), Crossfade(Written(l, input, offset, feedback), input, amount))
  }

  /** With no feedback the stored value is the input and the crossfade collapses, so a
      call returns its input exactly, whatever the buffer holds. */
  lemma NoFeedbackIsDry(l: Line, input: real, offset: int, amount: real)
    requires ValidLine(l) && 0 <= offset <= DELAY_LENGTH
    ensures Step(l, input, offset, 0.0, amount).1 == input
    ensures Step(l, input, offset, 0.0, amount).0.data[EntryCursor(l.sample)] == input
  {
  }

  /** The line after a run of calls with fixed parameters. */
  function Run(l: Line, xs: seq<real>, offset: int, feedback: real): (l': Line)
    requires ValidLine(l) && 0 <= offset <= DELAY_LENGTH
    ensures ValidLine(l')
    decreases |xs|
  {
    if xs == [] then l
    else Advance(Run(l, xs[..|xs| - 1], offset, feedback), xs[|xs| - 1], offset, feedback)
  }

  /** Calls fewer than `DELAY_LENGTH` apart write distinct slots. */
  lemma SlotsDistinct(c0: int, j: int, n: int)
    requires 0 <= c0 && 0 <= j < n && n - j < DELAY_LENGTH
    ensures (c0 + j) % DELAY_LENGTH != (c0 + n) % DELAY_LENGTH
  {
  }

  /** Each call of a run moves the entry cursor one slot on (mod `DELAY_LENGTH`). */
  lemma {:induction false} RunCursor(l: Line, xs: seq<real>, offset: int, feedback: real)
    requires ValidLine(l) && 0 <= offset <= DELAY_LENGTH
    ensures EntryCursor(Run(l, xs, offset, feedback).sample)
              == (EntryCursor(l.sample) + |xs|) % DELAY_LENGTH
    decreases |xs|
  {
    if xs != [] {
      var pre := xs[..|xs| - 1];
      RunCursor(l, pre, offset, feedback);
      var s := EntryCursor(Run(l, pre, offset, feedback).sample);
      assert Run(l, xs, offset, feedback).sample == s + 1;
      CursorSucc(EntryCursor(l.sample) + |pre|);
    }
  }

  /** The entry cursor after a call one slot on is that slot plus one, modulo
      `DELAY_LENGTH`. */
  lemma CursorSucc(a: nat)
    ensures EntryCursor(a % DELAY_LENGTH + 1) == (a + 1) % DELAY_LENGTH
  {
  }

  /** The values stored by the calls of a run, in call order. */
  function Stored(l: Line, xs: seq<real>, offset: int, feedback: real): (ws: seq<real>)
    requires ValidLine(l) && 0 <= offset <= DELAY_LENGTH
    ensures |ws| == |xs|
    decreases |xs|
  {
    if xs == [] then []
    else
      var pre := xs[..|xs| - 1];
      Stored(l, pre, offset, feedback) + [Written(Run(l, pre, offset, feedback), xs[|xs| - 1], offset, feedback)]
  }

  /** The first stored value is what the first call computes from the initial line. */
  lemma {:induction false} StoredFirst(l: Line, xs: seq<real>, offset: int, feedback: real)
    requires ValidLine(l) && 0 <= offset <= DELAY_LENGTH && xs != []
    ensures Stored(l, xs, offset, feedback)[0] == Written(l, xs[0], offset, feedback)
    decreases |xs|
  {
    if |xs| > 1 {
      StoredFirst(l, xs[..|xs| - 1], offset, feedback);
    } else {
      assert xs[..0] == [];
    }
  }

  /** With no feedback every call stores its own input. */
  lemma {:induction false} StoredNoFeedback(l: Line, xs: seq<real>, offset: int)
    requires ValidLine(l) && 0 <= offset <= DELAY_LENGTH
    ensures Stored(l, xs, offset, 0.0) == xs
    decreases |xs|
  {
    if xs != [] {
      StoredNoFeedback(l, xs[..|xs| - 1], offset);
      assert xs == xs[..|xs| - 1] + [xs[|xs| - 1]];
    }
  }

  /** Value j of `ws` sits in slot `c0 + j (mod DELAY_LENGTH)` of `data`, for the last
      `DELAY_LENGTH` values. */
  predicate HoldsLast(data: seq<real>, c0: int, ws: seq<real>) {
    |data| == DELAY_LENGTH && 0 <= c0
    && forall j :: 0 <= j < |ws| && |ws| - j <= DELAY_LENGTH ==> data[(c0 + j) % DELAY_LENGTH] == ws[j]
  }

  /** Call j of a run writes slot `c0 + j (mod DELAY_LENGTH)`, `c0` the entry cursor of
      the first call, and each of the last `DELAY_LENGTH` stored values is still there. */
  lemma {:induction false} RunSlots(l: Line, xs: seq<real>, offset: int, feedback: real)
    requires ValidLine(l) && 0 <= offset <= DELAY_LENGTH
    ensures HoldsLast(Run(l, xs, offset, feedback).data, EntryCursor(l.sample), Stored(l, xs, offset, feedback))
    decreases |xs|
  {
    if xs != [] {
      var pre, x := xs[..|xs| - 1], xs[|xs| - 1];
      RunSlots(l, pre, offset, feedback);
      RunCursor(l, pre, offset, feedback);
      var l1 := Run(l, pre, offset, feedback);
      LastCall(l, xs, offset, feedback);
      SlotsStep(l1.data, EntryCursor(l.sample), Stored(l, pre, offset, feedback),
                EntryCursor(l1.sample), Written(l1, x, offset, feedback),
                Run(l, xs, offset, feedback).data, Stored(l, xs, offset, feedback));
    }
  }

  /** The last call of a non-empty run writes its stored value under its entry cursor. */
  lemma LastCall(l: Line, xs: seq<real>, offset: int, feedback: real)
    requires ValidLine(l) && 0 <= offset <= DELAY_LENGTH && xs != []
    ensures var pre, l1 := xs[..|xs| - 1], Run(l, xs[..|xs| - 1], offset, feedback);
            var w := Written(l1, xs[|xs| - 1], offset, feedback);
            && Run(l, xs, offset, feedback).data == l1.data[EntryCursor(l1.sample) := w]
            && Stored(l, xs, offset, feedback) == Stored(l, pre, offset, feedback) + [w]
  {
  }

  /** One more write at slot `c0 + n` keeps the last `DELAY_LENGTH` values of a run in
      their slots and adds the new one. */
  lemma SlotsStep(data: seq<real>, c0: int, ws: seq<real>, s: int, w: real,
                  data': seq<real>, ws': seq<real>)
    requires HoldsLast(data, c0, ws) && s == (c0 + |ws|) % DELAY_LENGTH
    requires data' == data[s := w] && ws' == ws + [w]
    ensures HoldsLast(data', c0, ws')
  {
    var n := |ws|;
    forall j | 0 <= j < n + 1 && n + 1 - j <= DELAY_LENGTH
      ensures data'[(c0 + j) % DELAY_LENGTH] == ws'[j]
    {
      if j < n {
        SlotsDistinct(c0, j, n);
        assert ws'[j] == ws[j];
      }
    }
  }

  /** With offset 0 or `DELAY_LENGTH` the tap reads the slot about to be overwritten:
      after any run of at least `DELAY_LENGTH` calls, the next call's tap sees the value
      stored `DELAY_LENGTH` calls earlier. */
  lemma FullOffsetEchoes(l: Line, xs: seq<real>, offset: int, feedback: real)
    requires ValidLine(l) && (offset == 0 || offset == DELAY_LENGTH)
    requires |xs| >= DELAY_LENGTH
    ensures var last := Run(l, xs, offset, feedback);
            last.data[TapIndex(EntryCursor(last.sample), offset)]
              == Stored(l, xs, offset, feedback)[|xs| - DELAY_LENGTH]
  {
    var last := Run(l, xs, offset, feedback);
    var ws := Stored(l, xs, offset, feedback);
    var c0, c := EntryCursor(l.sample), EntryCursor(last.sample);
    assert c == (c0 + |ws|) % DELAY_LENGTH by {
      RunCursor(l, xs, offset, feedback);
    }
    assert HoldsLast(last.data, c0, ws) by {
      RunSlots(l, xs, offset, feedback);
    }
    EchoSlot(last.data, c0, ws, c, offset);
  }

  /** After exactly `DELAY_LENGTH` calls, that value is the one stored by the first
      call of the run. */
  lemma FullOffsetEchoesOneCycle(l: Line, xs: seq<real>, offset: int, feedback: real)
    requires ValidLine(l) && (offset == 0 || offset == DELAY_LENGTH)
    requires |xs| == DELAY_LENGTH
    ensures var last := Run(l, xs, offset, feedback);
            last.data[TapIndex(EntryCursor(last.sample), offset)] == Written(l, xs[0], offset, feedback)
  {
    FullOffsetEchoes(l, xs, offset, feedback);
    StoredFirst(l, xs, offset, feedback);
  }

  /** When the cursor is `|ws|` slots past `c0`, a tap at offset 0 or `DELAY_LENGTH`
      reads the value written `DELAY_LENGTH` writes ago. */
  lemma EchoSlot(data: seq<real>, c0: int, ws: seq<real>, cursor: int, offset: int)
    requires HoldsLast(data, c0, ws) && |ws| >= DELAY_LENGTH
    requires cursor == (c0 + |ws|) % DELAY_LENGTH
    requires offset == 0 || offset == DELAY_LENGTH
    ensures data[TapIndex(cursor, offset)] == ws[|ws| - DELAY_LENGTH]
  {
    var j := |ws| - DELAY_LENGTH;
    assert (c0 + |ws|) % DELAY_LENGTH == (c0 + j) % DELAY_LENGTH by {
      OneCycleLater(c0 + j);
    }
    assert 0 <= j < |ws| && |ws| - j <= DELAY_LENGTH;
  }

  /** A cursor `DELAY_LENGTH` calls later is back in the same slot. */
  lemma OneCycleLater(a: int)
    ensures (a + DELAY_LENGTH) % DELAY_LENGTH == a % DELAY_LENGTH
  {
  }

  /** With no feedback the buffer records the dry input: the slot of call j holds
      input j for the last `DELAY_LENGTH` calls. */
  lemma NoFeedbackRecordsInput(l: Line, xs: seq<real>, offset: int)
    requires ValidLine(l) && 0 <= offset <= DELAY_LENGTH
    ensures forall j :: 0 <= j < |xs| && |xs| - j <= DELAY_LENGTH ==>
              Run(l, xs, offset, 0.0).data[(EntryCursor(l.sample) + j) % DELAY_LENGTH] == xs[j]
  {
    RunSlots(l, xs, offset, 0.0);
    StoredNoFeedback(l, xs, offset);
  }

  /** The `delay` struct. The source's `time` field, turned into the tap offset
      `roundf(time*tmax)` on every call, is replaced by that integer offset, passed to
      `Process` (see `TapOffset`). */
  class DelayLine {
    const data: array<real>
    var tmax: real
    var sample: int
    var feedback: real
    var amount: real

    ghost predicate Valid()
      reads this
    {
      data.Length == DELAY_LENGTH && 0 <= sample <= DELAY_LENGTH
    }

    function State(): (l: Line)
      reads this, data
      requires Valid()
      ensures ValidLine(l)
    {
      Line(data[..], sample)
    }

    /** `delay_init`: a zero-filled buffer (`calloc`), cursor 0, feedback and amount 0.5,
        `tmax = DELAY_LENGTH`. */
    constructor ()
      ensures Valid() && fresh(data)
      ensures forall k :: 0 <= k < DELAY_LENGTH ==> data[k] == 0.0
      ensures sample == 0 && feedback == 0.5 && amount == 0.5 && tmax == DELAY_LENGTH as real
    {
      tmax := DELAY_LENGTH as real;
      data := new real[DELAY_LENGTH](_ => 0.0);
      sample := 0;
      feedback := 0.5;
      amount := 0.5;
    }

    /** `delay_process` with tap offset `offset`, which must lie in [0, DELAY_LENGTH] for
        the tap to stay inside the buffer. */
    method Process(input: real, offset: int) returns (out: real)
      requires Valid() && 0 <= offset <= DELAY_LENGTH
      modifies this`sample, data
      ensures Valid()
      ensures (State(), out) == Step(old(State()), input, offset, feedback, amount)
    {
      ghost var before := State();
      if sample >= DELAY_LENGTH {
        sample := 0;
      }
      var f := sample - offset;
      if f < 0 {
        f := f + DELAY_LENGTH;
      }
      assert f == TapIndex(EntryCursor(before.sample), offset);
      assert sample == EntryCursor(before.sample);
      assert input + data[f] * feedback == Written(before, input, offset, feedback);
      data[sample] := input + data[f] * feedback;
      out := data[sample];
      assert data[..] == before.data[sample := out];
      sample := sample + 1;
      out := Crossfade(out, input, amount);
      assert State() == Line(before.data[EntryCursor(before.sample) := Written(before, input, offset, feedback)],
                             EntryCursor(before.sample) + 1);
    }
  }
}
