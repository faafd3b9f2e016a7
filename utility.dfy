/** The non-transcendental primitives of cell/utility.h, over `real`. Coefficients that
    the source derives with tanf/sinf/expf/pow are taken as given reals, and `expf` in the
    limiter is a parameter about which only `exp(x) > 1` for `x > 0` is known. */
module Utility {

  function Abs(x: real): (r: real)
    ensures r >= 0.0 && (r == x || r == -x)
  {
    if x < 0.0 then -x else x
  }

  /** `crossfade(a, b, f) = a*f + b*(1 - f)`: f == 1 selects a, f == 0 selects b, and
      for f in [0, 1] the result lies between a and b. */
  function Crossfade(a: real, b: real, f: real): (r: real)
    ensures f == 1.0 ==> r == a
    ensures f == 0.0 ==> r == b
    ensures a == b ==> r == a
    ensures 0.0 <= f <= 1.0 && a <= b ==> a <= r <= b
    ensures 0.0 <= f <= 1.0 && b <= a ==> b <= r <= a
  {
    var r := a * f + b * (1.0 - f);
    BlendBetween(a, b, f, r);
    r
  }

  lemma MulNonNegative(x: real, y: real)
    requires x >= 0.0 && y >= 0.0
    ensures x * y >= 0.0
  {
  }

  lemma BlendBetween(a: real, b: real, f: real, r: real)
    requires r == a * f + b * (1.0 - f)
    ensures 0.0 <= f <= 1.0 && a <= b ==> a <= r <= b
    ensures 0.0 <= f <= 1.0 && b <= a ==> b <= r <= a
  {
    assert r - b == f * (a - b) && a - r == (1.0 - f) * (a - b);
    if 0.0 <= f <= 1.0 {
      if a <= b {
        MulNonNegative(f, b - a);
        MulNonNegative(1.0 - f, b - a);
      } else {
        MulNonNegative(f, a - b);
        MulNonNegative(1.0 - f, a - b);
      }
    }
  }

  /** `minimum(a, b)`: `b > a ? a : b`. */
  function Minimum(a: real, b: real): (r: real)
    ensures r <= a && r <= b
    ensures r == a || r == b
  {
    if b > a then a else b
  }

  /** Sample-and-hold (`snh`): re-samples the input once its counter has passed `time`. */
  class SampleHold {
    var t: int
    var value: real

    /** `snh_init` */
    constructor ()
      ensures t == 0 && value == 0.0
    {
      t := 0;
      value := 0.0;
    }

    /** `snh_process`: a call that enters with `t > time` takes `input` and restarts
        the counter; every call increments the counter; the held value is returned. */
    method Process(input: real, time: int) returns (r: real)
      modifies this
      ensures old(t) > time ==> value == input && t == 1
      ensures old(t) <= time ==> value == old(value) && t == old(t) + 1
      ensures t == HoldCounter(old(t), time)
      ensures r == value
    {
      if t > time {
        t := 0;
        value := input;
      }
      t := t + 1;
      r := value;
    }
  }

  /** The counter step of `snh_process` on its own. */
  function HoldCounter(t: int, time: int): int {
    if t > time then 1 else t + 1
  }

  function HoldCounterAfter(t: int, time: int, n: nat): int
    decreases n
  {
    if n == 0 then t else HoldCounter(HoldCounterAfter(t, time, n - 1), time)
  }

  /** Right after a re-sample (counter 1) and with `time >= 0`, the next `time` calls
      hold, and the call after them (the `time + 1`-th) re-samples. */
  lemma {:induction false} HoldPeriod(time: int, n: nat)
    requires time >= 0 && n <= time
    ensures HoldCounterAfter(1, time, n) == n + 1
    ensures n == time ==> HoldCounterAfter(1, time, n) > time
    decreases n
  {
    if n > 0 {
      HoldPeriod(time, n - 1);
    }
  }

  /** One-pole parameter smoother (`psf`). */
  class Smoother {
    var a: real
    var b: real
    var o: real

    /** `psf_init`, with `a = expf(-TAO/(time*0.001*sample_rate))` given. */
    constructor (a0: real)
      ensures a == a0 && b == 1.0 - a0 && o == 0.0
    {
      a := a0;
      b := 1.0 - a0;
      o := 0.0;
    }

    /** `psf_process` */
    method Process(input: real) returns (r: real)
      modifies this`o
      ensures o == SmoothNext(old(o), input, a, b) && r == o
    {
      o := SmoothNext(o, input, a, b);
      r := o;
    }
  }

  /** The update `o := in*b + o*a`. */
  function SmoothNext(o: real, input: real, a: real, b: real): real {
    input * b + o * a
  }

  /** With `b = 1 - a` and `a` in [0, 1] the new output lies between the input and the
      old output, and an input equal to the output is a fixed point. */
  lemma SmoothIsConvex(o: real, input: real, a: real)
    requires 0.0 <= a <= 1.0
    ensures o <= input ==> o <= SmoothNext(o, input, a, 1.0 - a) <= input
    ensures input <= o ==> input <= SmoothNext(o, input, a, 1.0 - a) <= o
    ensures SmoothNext(o, o, a, 1.0 - a) == o
  {
    assert SmoothNext(o, input, a, 1.0 - a) == Crossfade(o, input, a);
  }

  /** Envelope follower (`ef`): attack coefficient `a`, release coefficient `r`. */
  class Follower {
    var a: real
    var r: real
    var envelope: real

    /** `ef_init`, with the two `pow(0.01, ...)` coefficients given. */
    constructor (attack: real, release: real)
      ensures a == attack && r == release && envelope == 0.0
    {
      a, r := attack, release;
      envelope := 0.0;
    }

    /** `ef_process` */
    method Process(input: real)
      modifies this`envelope
      ensures envelope == FollowNext(old(envelope), input, a, r)
    {
      var f := Abs(input);
      if f > envelope {
        envelope := a * (envelope - f) + f;
      } else {
        envelope := r * (envelope - f) + f;
      }
    }
  }

  /** The follower's update: attack when `|in|` is above the envelope, release otherwise. */
  function FollowNext(e: real, input: real, a: real, r: real): real {
    var f := Abs(input);
    if f > e then a * (e - f) + f else r * (e - f) + f
  }

  /** With both coefficients in [0, 1] the envelope moves to a point between its old
      value and `|in|`; in particular it stays non-negative. */
  lemma FollowIsConvex(e: real, input: real, a: real, r: real)
    requires 0.0 <= a <= 1.0 && 0.0 <= r <= 1.0
    ensures var n := FollowNext(e, input, a, r);
            (e <= n <= Abs(input) || Abs(input) <= n <= e)
    ensures e >= 0.0 ==> FollowNext(e, input, a, r) >= 0.0
  {
    var f := Abs(input);
    if f > e {
      assert FollowNext(e, input, a, r) == Crossfade(e, f, a);
    } else {
      assert FollowNext(e, input, a, r) == Crossfade(e, f, r);
    }
  }

  /** Limiter: an envelope follower plus a threshold. */
  class Limiter {
    const e: Follower
    var threshold: real

    /** `limiter_init` */
    constructor (attack: real, release: real, thr: real)
      ensures fresh(e) && e.a == attack && e.r == release && e.envelope == 0.0
      ensures threshold == thr
    {
      e := new Follower(attack, release);
      threshold := thr;
    }

    /** `limit`: the envelope is updated first; the input passes unchanged while the
        envelope is at or below the threshold, and is divided by
        `exp(envelope - threshold)` above it. */
    method Limit(input: real, exp: real -> real) returns (out: real)
      requires forall x :: x > 0.0 ==> exp(x) > 1.0
      modifies e`envelope
      ensures e.envelope == FollowNext(old(e.envelope), input, e.a, e.r)
      ensures out == LimitOutput(input, e.envelope, threshold, exp)
      ensures e.envelope <= threshold ==> out == input
      ensures e.envelope > threshold && input != 0.0 ==> Abs(out) < Abs(input)
    {
      out := input;
      e.Process(input);
      if e.envelope > threshold {
        out := out / exp(e.envelope - threshold);
      }
      LimitAttenuates(input, e.envelope, threshold, exp);
    }
  }

  function LimitOutput(input: real, env: real, threshold: real, exp: real -> real): real
    requires forall x :: x > 0.0 ==> exp(x) > 1.0
  {
    if env > threshold then input / exp(env - threshold) else input
  }

  /** Above the threshold the limiter strictly reduces any non-zero input's magnitude
      and keeps its sign; at or below it the input passes through. */
  lemma LimitAttenuates(input: real, env: real, threshold: real, exp: real -> real)
    requires forall x :: x > 0.0 ==> exp(x) > 1.0
    ensures env <= threshold ==> LimitOutput(input, env, threshold, exp) == input
    ensures env > threshold && input != 0.0 ==>
              Abs(LimitOutput(input, env, threshold, exp)) < Abs(input)
    ensures env > threshold ==>
              (input >= 0.0 <==> LimitOutput(input, env, threshold, exp) >= 0.0)
  {
    if env > threshold {
      var g := exp(env - threshold);
      assert g > 1.0;
      var out := input / g;
      assert out * g == input;
      assert input - out == out * (g - 1.0);
      if input > 0.0 {
        assert out > 0.0;
        assert out * (g - 1.0) > 0.0;
      } else if input < 0.0 {
        assert out < 0.0;
        assert out * (g - 1.0) < 0.0;
      }
    }
  }

  /** Multi-output trapezoidal state-variable filter (`ltosvf`). */
  class StateVariable {
    var ic1eq: real
    var ic2eq: real
    var g: real
    var k: real
    var a: real
    var b: real
    var low: real
    var band: real
    var high: real
    var notch: real
    var peak: real
    var all: real

    /** `svflto_clr` */
    method Clear()
      modifies this`ic1eq, this`ic2eq
      ensures ic1eq == 0.0 && ic2eq == 0.0
    {
      ic1eq := 0.0;
      ic2eq := 0.0;
    }

    /** `svflto_init` with `g = tanf(PI*cutoff/SAMPLE_RATE)` given. */
    method Init(g0: real, q: real)
      requires q != 0.0 && 1.0 + g0 * (g0 + 1.0 / q) != 0.0
      modifies this`g, this`k, this`a, this`b
      ensures g == g0 && k == 1.0 / q
      ensures a * (1.0 + g * (g + k)) == 1.0 && b == g * a
    {
      g := g0;
      k := 1.0 / q;
      a := 1.0 / (1.0 + g * (g + k));
      b := g * a;
    }

    /** `svflto_process`: declared `float` in the source but returns nothing, so it is a
        procedure here; it updates the two integrators and all six taps. */
    method Process(input: real)
      modifies this`ic1eq, this`ic2eq, this`low, this`band, this`high, this`notch,
               this`peak, this`all
      ensures ic1eq == SvfIntegrators(old(ic1eq), old(ic2eq), input, a, b, g).0 && ic2eq == SvfIntegrators(old(ic1eq), old(ic2eq), input, a, b, g).1
      ensures band == (old(ic1eq) + ic1eq) / 2.0 && low == (old(ic2eq) + ic2eq) / 2.0
      ensures low + k * band + high == input
      ensures notch == low + high && peak == low - high && all == notch - k * band
      ensures all == input - 2.0 * k * band
    {
      var va := a * ic1eq + b * (input - ic2eq);
      var vb := ic2eq + g * va;
      ic1eq := 2.0 * va - ic1eq;
      ic2eq := 2.0 * vb - ic2eq;
      low := vb;
      band := va;
      high := input - k * va - vb;
      notch := low + high;
      peak := low - high;
      all := low + high - k * band;
    }
  }

  /** Integrator update of `svflto_process`. */
  function SvfIntegrators(ic1: real, ic2: real, input: real, a: real, b: real, g: real): (real, real) {
    var va := a * ic1 + b * (input - ic2);
    var vb := ic2 + g * va;
    (2.0 * va - ic1, 2.0 * vb - ic2)
  }

  /** Zero input with zero integrators leaves them at zero. */
  lemma SvfRest(a: real, b: real, g: real)
    ensures SvfIntegrators(0.0, 0.0, 0.0, a, b, g) == (0.0, 0.0)
  {
  }

  /** Resonance-coefficient trapezoidal filter (`ltoskf`). */
  class Resonant {
    var ic1eq: real
    var ic2eq: real
    var k: real
    var a0: real
    var a1: real
    var a2: real
    var a3: real
    var a4: real
    var a5: real

    /** `ltoskf_clr` */
    method Clear()
      modifies this`ic1eq, this`ic2eq
      ensures ic1eq == 0.0 && ic2eq == 0.0
    {
      ic1eq := 0.0;
      ic2eq := 0.0;
    }

    /** `ltoskf_init` with `g = tanf(PI*cutoff/SAMPLE_RATE)` given. */
    method Init(g: real, q: real)
      requires (1.0 + g) * (1.0 + g) - g * q != 0.0 && 1.0 + g != 0.0
      modifies this`k, this`a0, this`a1, this`a2, this`a3, this`a4, this`a5
      ensures k == q && a0 * ((1.0 + g) * (1.0 + g) - g * q) == 1.0
      ensures a1 == k * a0 && a2 == (1.0 + g) * a0 && a3 == g * a2
      ensures a4 * (1.0 + g) == 1.0 && a5 == g * a4
    {
      k := q;
      a0 := 1.0 / ((1.0 + g) * (1.0 + g) - g * k);
      a1 := k * a0;
      a2 := (1.0 + g) * a0;
      a3 := g * a2;
      a4 := 1.0 / (1.0 + g);
      a5 := g * a4;
    }

    /** `ltoskf_process`: only the two integrators change; the output is the mean of the
        old and the new second integrator. */
    method Process(input: real) returns (v2: real)
      modifies this`ic1eq, this`ic2eq
      ensures ic1eq == ResonantIntegrators(old(ic1eq), old(ic2eq), input, k, a1, a2, a3, a4, a5).0 && ic2eq == ResonantIntegrators(old(ic1eq), old(ic2eq), input, k, a1, a2, a3, a4, a5).1
      ensures v2 == (old(ic2eq) + ic2eq) / 2.0
    {
      var v1 := a1 * ic2eq + a2 * ic1eq + a3 * input;
      v2 := a4 * ic2eq + a5 * v1;
      ic1eq := 2.0 * (v1 - k * v2) - ic1eq;
      ic2eq := 2.0 * v2 - ic2eq;
    }
  }

  function ResonantIntegrators(ic1: real, ic2: real, input: real, k: real,
                               a1: real, a2: real, a3: real, a4: real, a5: real): (real, real) {
    var v1 := a1 * ic2 + a2 * ic1 + a3 * input;
    var v2 := a4 * ic2 + a5 * v1;
    (2.0 * (v1 - k * v2) - ic1, 2.0 * v2 - ic2)
  }

  /** Zero input with zero integrators leaves them at zero. */
  lemma ResonantRest(k: real, a1: real, a2: real, a3: real, a4: real, a5: real)
    ensures ResonantIntegrators(0.0, 0.0, 0.0, k, a1, a2, a3, a4, a5) == (0.0, 0.0)
  {
  }

  /** Two-coefficient trapezoidal filter (`ltfskf`), the tone filter of grib.c. */
  class TwoCoefficient {
    var ic1eq: real
    var ic2eq: real
    var g0: real
    var g1: real
    var g2: real

    /** `ltfskf_clr` */
    method Clear()
      modifies this`ic1eq, this`ic2eq
      ensures ic1eq == 0.0 && ic2eq == 0.0
    {
      ic1eq := 0.0;
      ic2eq := 0.0;
    }

    /** `ltfskf_init` with `s1 = sinf(w)` and `s2 = sinf(2w)` given. */
    method Init(s1: real, s2: real, q: real)
      requires 2.0 + q * s2 != 0.0
      modifies this`g0, this`g1, this`g2
      ensures g0 * (2.0 + q * s2) == s2
      ensures g1 * (2.0 + q * s2) == -2.0 * s1 * s1 - q * s2
      ensures g2 * (2.0 + q * s2) == 2.0 * s1 * s1
    {
      var nrm := 1.0 / (2.0 + q * s2);
      g0 := s2 * nrm;
      g1 := (-2.0 * s1 * s1 - q * s2) * nrm;
      g2 := (2.0 * s1 * s1) * nrm;
    }

    /** `ltfskf_process`: only the two integrators change; the output is the mean of the
        old and the new second integrator. */
    method Process(input: real) returns (v2: real)
      modifies this`ic1eq, this`ic2eq
      ensures ic1eq == TwoCoefficientIntegrators(old(ic1eq), old(ic2eq), input, g0, g1, g2).0 && ic2eq == TwoCoefficientIntegrators(old(ic1eq), old(ic2eq), input, g0, g1, g2).1
      ensures v2 == (old(ic2eq) + ic2eq) / 2.0
    {
      var t0 := input - ic2eq;
      var t1 := g0 * t0 + g1 * ic1eq;
      var t2 := g2 * t0 + g0 * ic1eq;
      v2 := t2 + ic2eq;
      ic1eq := ic1eq + 2.0 * t1;
      ic2eq := ic2eq + 2.0 * t2;
    }
  }

  function TwoCoefficientIntegrators(ic1: real, ic2: real, input: real,
                                     g0: real, g1: real, g2: real): (real, real) {
    var t0 := input - ic2;
    (ic1 + 2.0 * (g0 * t0 + g1 * ic1), ic2 + 2.0 * (g2 * t0 + g0 * ic1))
  }

  /** Zero input with zero integrators leaves them at zero. */
  lemma TwoCoefficientRest(g0: real, g1: real, g2: real)
    ensures TwoCoefficientIntegrators(0.0, 0.0, 0.0, g0, g1, g2) == (0.0, 0.0)
  {
  }
}
