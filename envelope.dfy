/** The two-stage looping envelope of cell/envelope.h: stage k lasts `t[k]` calls and
    adds the slope `f[k]` to a running level `feed` on every call; `init_envelope`
    derives the slopes from the stage levels `a[k]`. */
module Envelope {
  import opened Numeric

  const NSTAGES: int := 2

  /** The state `process_envelope` updates. */
  datatype Phase = Phase(stage: int, depated: int, feed: real)

  /** The slope `init_envelope` gives stage i: from the previous level, truncated to an
      integer (0 before the first stage), to `a[i]`, over `t[i]` calls. */
  function Slope(a: seq<real>, t: seq<int>, i: int): real
    requires |a| == NSTAGES && |t| == NSTAGES && 0 <= i < NSTAGES && t[i] != 0
  {
    (a[i] - (if i == 0 then 0 else Trunc(a[i - 1])) as real) / t[i] as real
  }

  predicate ValidStages(t: seq<int>, f: seq<real>) {
    |t| == NSTAGES && |f| == NSTAGES
  }

  /** `process_envelope`: once the stage has run `t[stage]` calls, restart the count in
      the next stage (wrapping after the last); then add that stage's slope and count
      the call. */
  function Step(p: Phase, t: seq<int>, f: seq<real>): (q: Phase)
    requires ValidStages(t, f) && 0 <= p.stage < NSTAGES
    ensures 0 <= q.stage < NSTAGES
    ensures q.feed == p.feed + f[q.stage]
    ensures q.stage == (if p.depated >= t[p.stage] then (p.stage + 1) % NSTAGES else p.stage)
    ensures q.depated == (if p.depated >= t[p.stage] then 1 else p.depated + 1)
  {
    var (stage, depated) :=
      if p.depated >= t[p.stage] then
        (if p.stage + 1 == NSTAGES then 0 else p.stage + 1, 0)
      else (p.stage, p.depated);
    Phase(stage, depated + 1, p.feed + f[stage])
  }

  /** The state after n calls. */
  function Run(p: Phase, t: seq<int>, f: seq<real>, n: nat): (q: Phase)
    requires ValidStages(t, f) && 0 <= p.stage < NSTAGES
    ensures 0 <= q.stage < NSTAGES
    decreases n
  {
    if n == 0 then p else Run(Step(p, t, f), t, f, n - 1)
  }

  /** With every stage at least one call long, a call keeps the count within the
      stage: 1 <= depated <= t[stage]. */
  lemma StepKeepsCount(p: Phase, t: seq<int>, f: seq<real>)
    requires ValidStages(t, f) && 0 <= p.stage < NSTAGES
    requires forall k :: 0 <= k < NSTAGES ==> t[k] >= 1
    requires 0 <= p.depated <= t[p.stage]
    ensures var q := Step(p, t, f); 1 <= q.depated <= t[q.stage]
  {
  }

  lemma {:induction false} RunAdd(p: Phase, t: seq<int>, f: seq<real>, m: nat, n: nat)
    requires ValidStages(t, f) && 0 <= p.stage < NSTAGES
    ensures Run(p, t, f, m + n) == Run(Run(p, t, f, m), t, f, n)
    decreases m
  {
    if m > 0 {
      RunAdd(Step(p, t, f), t, f, m - 1, n);
    }
  }

  /** Within a stage: from count d, n more calls (d + n <= t[k]) stay in stage k, move
      the count to d + n and add n slopes of stage k. */
  lemma {:induction false} WithinStage(p: Phase, t: seq<int>, f: seq<real>, n: nat)
    requires ValidStages(t, f) && 0 <= p.stage < NSTAGES
    requires p.depated + n <= t[p.stage]
    ensures Run(p, t, f, n) == Phase(p.stage, p.depated + n, p.feed + Times(n, f[p.stage]))
    decreases n
  {
    if n > 0 {
      var q := Step(p, t, f);
      assert q == Phase(p.stage, p.depated + 1, p.feed + f[p.stage]);
      WithinStage(q, t, f, n - 1);
    }
  }

  /** n times x as a repeated sum. */
  function Times(n: nat, x: real): real
    decreases n
  {
    if n == 0 then 0.0 else Times(n - 1, x) + x
  }

  lemma {:induction false} TimesIsProduct(n: nat, x: real)
    ensures Times(n, x) == n as real * x
    decreases n
  {
    if n > 0 {
      TimesIsProduct(n - 1, x);
      var m := (n - 1) as real;
      assert n as real == m + 1.0;
      assert (m + 1.0) * x == m * x + x;
    }
  }

  /** A whole stage: from the last call of stage k, the next t[k'] calls (k' the
      following stage) run exactly stage k' and end at its last call. */
  lemma NextStage(p: Phase, t: seq<int>, f: seq<real>)
    requires ValidStages(t, f) && 0 <= p.stage < NSTAGES
    requires forall k :: 0 <= k < NSTAGES ==> t[k] >= 1
    requires p.depated == t[p.stage]
    ensures var k' := (p.stage + 1) % NSTAGES;
            Run(p, t, f, t[k']) == Phase(k', t[k'], p.feed + Times(t[k'], f[k']))
  {
    var k' := (p.stage + 1) % NSTAGES;
    var q := Step(p, t, f);
    var n := t[k'];
    assert q == Phase(k', 1, p.feed + f[k']);
    assert Run(p, t, f, n) == Run(q, t, f, n - 1) by {
      RunAdd(p, t, f, 1, n - 1);
      assert Run(p, t, f, 1) == q;
    }
    assert Run(q, t, f, n - 1) == Phase(k', n, p.feed + f[k'] + Times(n - 1, f[k'])) by {
      WithinStage(q, t, f, n - 1);
    }
    TimesShift(n, f[k']);
  }

  /** Peeling the first of n summands. */
  lemma {:induction false} TimesShift(n: nat, x: real)
    requires n >= 1
    ensures x + Times(n - 1, x) == Times(n, x)
    decreases n
  {
  }

  /** Stage i's slopes add up to its level step. */
  lemma ScaledSlope(a: seq<real>, t: seq<int>, i: int)
    requires |a| == NSTAGES && |t| == NSTAGES && 0 <= i < NSTAGES && t[i] >= 1
    ensures Times(t[i], Slope(a, t, i)) == a[i] - (if i == 0 then 0 else Trunc(a[i - 1])) as real
  {
    TimesIsProduct(t[i], Slope(a, t, i));
  }

  /** The level gained over one full cycle of both stages. */
  function CycleGain(a: seq<real>): real
    requires |a| == NSTAGES
  {
    a[0] + a[1] - Trunc(a[0]) as real
  }

  /** From the last call of stage 1, each cycle of t[0] + t[1] calls returns to the same
      point and adds a[0] + a[1] - trunc(a[0]) to the level. */
  lemma {:induction false} CyclesAdd(p: Phase, a: seq<real>, t: seq<int>, f: seq<real>, cycles: nat)
    requires ValidStages(t, f) && |a| == NSTAGES
    requires forall k :: 0 <= k < NSTAGES ==> t[k] >= 1
    requires forall k :: 0 <= k < NSTAGES ==> f[k] == Slope(a, t, k)
    requires p.stage == 1 && p.depated == t[1]
    ensures Run(p, t, f, cycles * (t[0] + t[1])) == Phase(1, t[1], p.feed + Times(cycles, CycleGain(a)))
    decreases cycles
  {
    var c := t[0] + t[1];
    if cycles > 0 {
      OneCycle(p, a, t, f);
      var p1 := Run(p, t, f, c);
      CyclesAdd(p1, a, t, f, cycles - 1);
      assert cycles * c == c + (cycles - 1) * c;
      RunAdd(p, t, f, c, (cycles - 1) * c);
    }
  }

  /** One cycle of t[0] + t[1] calls from the last call of stage 1. */
  lemma OneCycle(p: Phase, a: seq<real>, t: seq<int>, f: seq<real>)
    requires ValidStages(t, f) && |a| == NSTAGES
    requires forall k :: 0 <= k < NSTAGES ==> t[k] >= 1
    requires forall k :: 0 <= k < NSTAGES ==> f[k] == Slope(a, t, k)
    requires p.stage == 1 && p.depated == t[1]
    ensures Run(p, t, f, t[0] + t[1]) == Phase(1, t[1], p.feed + CycleGain(a))
  {
    ScaledSlope(a, t, 0);
    ScaledSlope(a, t, 1);
    NextStage(p, t, f);
    var p0 := Run(p, t, f, t[0]);
    NextStage(p0, t, f);
    RunAdd(p, t, f, t[0], t[1]);
  }

  /** From `init_envelope` (stage 0, count 0, level 0) with slopes from levels `a`,
      the first t[0] calls end stage 0 at level a[0]. */
  lemma FirstStageFromInit(a: seq<real>, t: seq<int>, f: seq<real>)
    requires ValidStages(t, f) && |a| == NSTAGES
    requires forall k :: 0 <= k < NSTAGES ==> t[k] >= 1
    requires forall k :: 0 <= k < NSTAGES ==> f[k] == Slope(a, t, k)
    ensures Run(Phase(0, 0, 0.0), t, f, t[0]) == Phase(0, t[0], a[0])
  {
    WithinStage(Phase(0, 0, 0.0), t, f, t[0]);
    ScaledSlope(a, t, 0);
  }

  /** From `init_envelope`, the first t[0] + t[1] calls end stage 1 at level
      a[0] + a[1] - trunc(a[0]). */
  lemma FirstCycleFromInit(a: seq<real>, t: seq<int>, f: seq<real>)
    requires ValidStages(t, f) && |a| == NSTAGES
    requires forall k :: 0 <= k < NSTAGES ==> t[k] >= 1
    requires forall k :: 0 <= k < NSTAGES ==> f[k] == Slope(a, t, k)
    ensures Run(Phase(0, 0, 0.0), t, f, t[0] + t[1]) == Phase(1, t[1], CycleGain(a))
  {
    var init := Phase(0, 0, 0.0);
    FirstStageFromInit(a, t, f);
    var p0 := Run(init, t, f, t[0]);
    ScaledSlope(a, t, 1);
    NextStage(p0, t, f);
    RunAdd(init, t, f, t[0], t[1]);
  }

  /** From `init_envelope`, every further cycle of t[0] + t[1] calls adds
      a[0] + a[1] - trunc(a[0]) again, because `feed` is never reset. */
  lemma LevelsFromInit(a: seq<real>, t: seq<int>, f: seq<real>, cycles: nat)
    requires ValidStages(t, f) && |a| == NSTAGES
    requires forall k :: 0 <= k < NSTAGES ==> t[k] >= 1
    requires forall k :: 0 <= k < NSTAGES ==> f[k] == Slope(a, t, k)
    ensures Run(Phase(0, 0, 0.0), t, f, (cycles + 1) * (t[0] + t[1])).feed
              == (cycles + 1) as real * CycleGain(a)
  {
    var init := Phase(0, 0, 0.0);
    var c := t[0] + t[1];
    FirstCycleFromInit(a, t, f);
    var p1 := Run(init, t, f, c);
    var g := CycleGain(a);
    CyclesAdd(p1, a, t, f, cycles);
    assert (cycles + 1) * c == c + cycles * c;
    RunAdd(init, t, f, c, cycles * c);
    assert Run(init, t, f, (cycles + 1) * c).feed == g + Times(cycles, g);
    assert g + Times(cycles, g) == Times(cycles + 1, g);
    TimesIsProduct(cycles + 1, g);
  }

  /** The `envelope` struct. */
  class Env {
    const t: array<int>
    const a: array<real>
    const f: array<real>
    var stage: int
    var depated: int
    var feed: real

    ghost predicate Valid()
      reads this
    {
      t.Length == NSTAGES && a.Length == NSTAGES && f.Length == NSTAGES
      && f != a && 0 <= stage < NSTAGES
    }

    function State(): Phase
      reads this
    {
      Phase(stage, depated, feed)
    }

    /** An envelope with timings `ts` and levels `levels`; the slopes are set by `Init`. */
    constructor (ts: seq<int>, levels: seq<real>)
      requires |ts| == NSTAGES && |levels| == NSTAGES
      ensures Valid() && fresh(t) && fresh(a) && fresh(f)
      ensures t[..] == ts && a[..] == levels && State() == Phase(0, 0, 0.0)
    {
      t := new int[NSTAGES](k requires 0 <= k < NSTAGES => ts[k]);
      a := new real[NSTAGES](k requires 0 <= k < NSTAGES => levels[k]);
      f := new real[NSTAGES];
      stage, depated, feed := 0, 0, 0.0;
    }

    /** `init_envelope`. Dividing by a zero timing is excluded. */
    method Init()
      requires Valid() && t[0] != 0 && t[1] != 0
      modifies this`stage, this`depated, this`feed, f
      ensures Valid() && State() == Phase(0, 0, 0.0)
      ensures forall k :: 0 <= k < NSTAGES ==> f[k] == Slope(a[..], t[..], k)
    {
      stage, depated, feed := 0, 0, 0.0;
      var ai := 0;
      var i := 0;
      while i < NSTAGES
        invariant 0 <= i <= NSTAGES
        invariant Valid() && State() == Phase(0, 0, 0.0)
        invariant ai == (if i == 0 then 0 else Trunc(a[i - 1]))
        invariant forall k :: 0 <= k < i ==> f[k] == Slope(a[..], t[..], k)
      {
        f[i] := (a[i] - ai as real) / t[i] as real;
        ai := Trunc(a[i]);
        i := i + 1;
      }
    }

    /** `process_envelope` */
    method Process() returns (out: real)
      requires Valid()
      modifies this`stage, this`depated, this`feed
      ensures Valid() && State() == Step(old(State()), t[..], f[..]) && out == feed
    {
      if depated >= t[stage] {
        depated := 0;
        stage := stage + 1;
        if stage == NSTAGES {
          stage := 0;
        }
      }
      feed := feed + f[stage];
      depated := depated + 1;
      out := feed;
    }
  }
}
