/** The oscillator of cell/oscillator.h: a phase that advances by `delta + fm` per
    sample and wraps by one period, the per-waveform outputs computed from it, and the
    two wavetable fills. `sinf`, `cosf` and `sqrt` are passed in as functions. */
module Oscillator {
  import opened Numeric
  import opened Utility

  /** The two float literals differ in their last decimal; as floats they are the same
      value and twice it, so the model takes TAO as exactly 2 * PI. */
  const PI: real := 3.141592653589793238462
  const TAO: real := 2.0 * PI
  const SAMPLE_RATE: int := 44100

  /** `phase += inc; if (phase >= limit) phase -= TAO;` */
  function Advance(phase: real, inc: real, limit: real): (r: real)
    ensures r == phase + inc || r == phase + inc - TAO
    ensures phase + inc < limit + TAO ==> r < limit
  {
    if phase + inc >= limit then phase + inc - TAO else phase + inc
  }

  /** A window one period wide, ending (open) at `limit`, is kept by any increment
      between 0 and one period. */
  lemma AdvanceKeepsWindow(phase: real, inc: real, limit: real)
    requires limit - TAO <= phase < limit && 0.0 <= inc <= TAO
    ensures limit - TAO <= Advance(phase, inc, limit) < limit
  {
  }

  /** The wrap only ever subtracts one period, so the phase moves by the increment
      modulo TAO. */
  lemma AdvanceMovesByIncrement(phase: real, inc: real, limit: real)
    ensures Advance(phase, inc, limit) - phase == inc
            || Advance(phase, inc, limit) - phase == inc - TAO
  {
  }

  /** There is no lower wrap: a negative increment can take the phase below the
      window, and it stays there. */
  lemma NegativeIncrementLeavesWindow(phase: real, inc: real, limit: real)
    requires limit - TAO <= phase < limit && phase + inc < limit - TAO
    ensures Advance(phase, inc, limit) < limit - TAO
  {
  }

  /** `set_delta`: the increment for `hz` cycles per second at 44100 samples per second. */
  function Delta(hz: real): (d: real)
    ensures d * SAMPLE_RATE as real == hz * TAO
    ensures 0.0 <= d <= TAO <==> 0.0 <= hz <= SAMPLE_RATE as real
  {
    hz * TAO / SAMPLE_RATE as real
  }

  /** `oRamp`'s output from the phase before the update. */
  function RampOut(phase: real, amp: real): real {
    phase / PI * amp
  }

  /** `oSawtooth`'s output from the phase before the update. */
  function SawOut(phase: real, amp: real): real {
    -phase / PI * amp
  }

  /** Over the window [-PI, PI) the ramp runs over [-amp, amp). */
  lemma RampOutRange(phase: real, amp: real)
    requires -PI <= phase < PI && amp > 0.0
    ensures -amp <= RampOut(phase, amp) < amp
  {
    var r := phase / PI;
    assert -1.0 <= r < 1.0;
    assert RampOut(phase, amp) == r * amp;
    assert amp - r * amp == (1.0 - r) * amp;
    assert r * amp + amp == (r + 1.0) * amp;
    MulNonNegative(r + 1.0, amp);
    PositiveProduct(1.0 - r, amp);
  }

  /** Over the window [-PI, PI) the sawtooth runs over (-amp, amp]. */
  lemma SawOutRange(phase: real, amp: real)
    requires -PI <= phase < PI && amp > 0.0
    ensures -amp < SawOut(phase, amp) <= amp
  {
    var r := -phase / PI;
    assert -1.0 < r <= 1.0;
    assert SawOut(phase, amp) == r * amp;
    assert amp - r * amp == (1.0 - r) * amp;
    assert r * amp + amp == (r + 1.0) * amp;
    MulNonNegative(1.0 - r, amp);
    PositiveProduct(r + 1.0, amp);
  }

  lemma PositiveProduct(x: real, y: real)
    requires x > 0.0 && y > 0.0
    ensures x * y > 0.0
  {
  }

  /** `oSquare`'s output: the ramp of `phase` and the reversed ramp of `eax`, mixed by
      `warp`. */
  function SquareOut(phase: real, eax: real, warp: real): real {
    Crossfade(phase / PI, -eax / PI, warp)
  }

  /** `phase` and `eax` take the same increment; each wraps on its own, so their
      distance changes by a whole period or not at all. */
  lemma SquareKeepsDistance(phase: real, eax: real, inc: real, pwm: real)
    ensures var d := Advance(phase, inc, PI) - Advance(eax, inc, PI + pwm);
            d == phase - eax || d == phase - eax + TAO || d == phase - eax - TAO
  {
  }

  /** The window of `eax` is [PI + pwm - TAO, PI + pwm): it wraps at PI + pwm. The start
      value PI lies in it exactly when 0 < pwm <= TAO. */
  predicate InEaxWindow(eax: real, pwm: real) {
    PI + pwm - TAO <= eax < PI + pwm
  }

  lemma PiInEaxWindow(pwm: real)
    ensures InEaxWindow(PI, pwm) <==> 0.0 < pwm <= TAO
  {
  }

  /** `eax` after a run of `oSquare` calls with the increments `incs`. */
  function EaxRun(eax: real, incs: seq<real>, pwm: real): real
    decreases |incs|
  {
    if incs == [] then eax else EaxRun(Advance(eax, incs[0], PI + pwm), incs[1..], pwm)
  }

  /** Every run of increments in [0, TAO] keeps `eax` in its window. */
  lemma {:induction false} EaxRunKeepsWindow(eax: real, incs: seq<real>, pwm: real)
    requires InEaxWindow(eax, pwm)
    requires forall k :: 0 <= k < |incs| ==> 0.0 <= incs[k] <= TAO
    ensures InEaxWindow(EaxRun(eax, incs, pwm), pwm)
    decreases |incs|
  {
    if incs != [] {
      AdvanceKeepsWindow(eax, incs[0], PI + pwm);
      EaxRunKeepsWindow(Advance(eax, incs[0], PI + pwm), incs[1..], pwm);
    }
  }

  /** Started at PI with 0 < pwm <= TAO, `eax` stays in its window through every run of
      increments in [0, TAO]; with pwm outside that range PI is already outside it. */
  lemma SquareEaxFromPi(incs: seq<real>, pwm: real)
    requires forall k :: 0 <= k < |incs| ==> 0.0 <= incs[k] <= TAO
    ensures 0.0 < pwm <= TAO ==> InEaxWindow(EaxRun(PI, incs, pwm), pwm)
    ensures !(0.0 < pwm <= TAO) ==> !InEaxWindow(PI, pwm)
  {
    PiInEaxWindow(pwm);
    if 0.0 < pwm <= TAO {
      EaxRunKeepsWindow(PI, incs, pwm);
    }
  }

  /** With `phase` in its window [-PI, PI), `eax` in its window and `warp` in [0, 1],
      the square output lies in [-1 - pwm/PI, 1]: the mix of a ramp in [-1, 1) and a
      reversed ramp in (-1 - pwm/PI, 1 - pwm/PI]. */
  lemma SquareOutRange(phase: real, eax: real, warp: real, pwm: real)
    requires -PI <= phase < PI && InEaxWindow(eax, pwm)
    requires 0.0 <= warp <= 1.0 && pwm >= 0.0
    ensures -1.0 - pwm / PI <= SquareOut(phase, eax, warp) <= 1.0
  {
    var s := phase / PI;
    var q := -eax / PI;
    assert -1.0 <= s <= 1.0;
    assert -1.0 - pwm / PI <= q <= 1.0;
  }

  /** `oTomisawa`'s coefficient: 1 - 0.0001 * frequency, clamped below at 0. */
  function Coefficient(frequency: real): (c: real)
    ensures c >= 0.0
    ensures frequency >= 0.0 ==> c <= 1.0
    ensures frequency >= 10000.0 ==> c == 0.0
    ensures frequency < 10000.0 ==> c == 1.0 - frequency / 10000.0 && c > 0.0
  {
    var c := 1.0 * (1.0 - 0.0001 * frequency);
    if c < 0.0 then 0.0 else c
  }

  /** The feedback memories of `oTomisawa`: the mean of the new cosine and the old
      memory. */
  function Feedback(cosine: real, memory: real): real {
    0.5 * (cosine + memory)
  }

  /** The angle of `oTomisawa`'s first cosine: the phase pushed by `ecx` times the
      memory `eax`. */
  function ArgA(phase: real, ecx: real, eax: real): real {
    phase + ecx * eax
  }

  /** The angle of the second cosine: pushed by `ebx` and offset by
      (1.9 pwm + 0.05) PI. */
  function ArgB(phase: real, ecx: real, ebx: real, pwm: real): real {
    phase + ecx * ebx + (pwm * 1.9 + 0.05) * PI
  }

  /** With cosines in [-1, 1], a memory in [-1, 1] stays there. */
  lemma FeedbackBounded(cosine: real, memory: real)
    requires -1.0 <= cosine <= 1.0 && -1.0 <= memory <= 1.0
    ensures -1.0 <= Feedback(cosine, memory) <= 1.0
  {
  }

  /** `x / den` guarded against a zero denominator. */
  function Guarded(x: real, den: real): (r: real)
    ensures den != 0.0 ==> r * den == x
    ensures den == 0.0 ==> r == 0.0
  {
    if den != 0.0 then x / den else 0.0
  }

  /** The phase `oTriangle` uses: one period off when strictly above TAO. */
  function TrianglePhase(phase: real): (p: real)
    ensures p == phase || p == phase - TAO
    ensures phase >= 0.0 ==> p >= 0.0
    ensures phase <= 2.0 * TAO ==> p <= TAO
  {
    if phase > TAO then phase - TAO else phase
  }

  /** `oTriangle` wraps once, before use, and advances after; so from a phase in
      [0, 2 TAO] with an increment in [0, TAO] the phase used is in [0, TAO] and the
      next phase is back in [0, 2 TAO]. */
  lemma TrianglePhaseWindow(phase: real, inc: real)
    requires 0.0 <= phase <= 2.0 * TAO && 0.0 <= inc <= TAO
    ensures 0.0 <= TrianglePhase(phase) <= TAO
    ensures 0.0 <= TrianglePhase(phase) + inc <= 2.0 * TAO
  {
  }

  /** The output of `oTriangle` for the phase `p` it uses, `root` standing for
      `sqrt(p)`: the rise takes `pwm * TAO` of the period, the fall the rest, and
      each slope is divided out only when its segment is non-empty. */
  function TriangleOut(p: real, root: real, amp: real, pwm: real): real {
    var rise := pwm * TAO;
    var fall := TAO - rise;
    var riseDelta := Guarded(2.0 * amp, rise);
    var fallDelta := Guarded(2.0 * amp, fall);
    if p < rise then -amp + root * riseDelta else amp - (root - rise) * fallDelta
  }

  /** The division guards of `oTriangle` at the ends of the `pwm` range: with
      `pwm == 0` there is no rise segment and the wave only falls, from `amp`; with
      `pwm == 1` the fall segment is empty, so its slope is 0 rather than a division by
      zero, and at the end of the period the output holds at `amp`. With a rise
      segment, the wave starts from `-amp` where `root` is 0. */
  lemma TriangleGuards(p: real, root: real, amp: real, pwm: real)
    ensures pwm == 0.0 && p >= 0.0 ==>
              TriangleOut(p, root, amp, pwm) == amp - root * (2.0 * amp / TAO)
    ensures pwm == 1.0 && p >= TAO ==> TriangleOut(p, root, amp, pwm) == amp
    ensures pwm > 0.0 && 0.0 <= p < pwm * TAO ==>
              TriangleOut(p, root, amp, pwm) == -amp + root * (2.0 * amp / (pwm * TAO))
    ensures pwm > 0.0 && p == 0.0 && root == 0.0 ==> TriangleOut(p, root, amp, pwm) == -amp
  {
    if pwm > 0.0 {
      PositiveProduct(pwm, TAO);
    }
  }

  // ---- oParabolWT -------------------------------------------------------------------

  /** The segment length `m` of `oParabolWT`: half a period in samples, truncated. */
  function SegmentLength(frequency: real): (m: int)
    requires frequency > 0.0
    ensures frequency <= SAMPLE_RATE as real / 2.0 ==> m >= 1
  {
    var x := SAMPLE_RATE as real / (2.0 * frequency);
    assert x * (2.0 * frequency) == SAMPLE_RATE as real;
    Trunc(x)
  }

  /** The peak scale: `amplitude * 4 / (m*m)`. */
  function ParabolPeak(amplitude: real, m: int): real
    requires m >= 1
  {
    amplitude * (4.0 / (m * m) as real)
  }

  /** The running amplitude in segment k: negated at the start of every segment,
      starting from the peak before segment 0. */
  function SegmentSign(peak: real, k: int): real {
    if k % 2 == 0 then -peak else peak
  }

  /** The integer factor (i - a) * (i - b) of `oParabolWT` at offset r = i - a into a
      segment of m samples (b = a + m). */
  function Curve(m: int, r: int): int {
    r * (r - m)
  }

  /** What `oParabolWT` leaves in `data[i]`: within segment k = i/m, the parabola
      through the segment's two ends at offset i mod m, scaled by the segment's
      amplitude. */
  function ParabolValue(peak: real, m: int, i: nat): real
    requires m >= 1
  {
    SegmentSign(peak, i / m) * Curve(m, i % m) as real
  }

  /** Every segment starts at zero. */
  lemma ParabolZeroAtMultiples(peak: real, m: int, k: nat)
    requires m >= 1
    ensures ParabolValue(peak, m, k * m) == 0.0
  {
    DivModUnique(k * m, m, k, 0);
  }

  /** Segments alternate in sign: one segment on, the value is negated. */
  lemma ParabolAlternates(peak: real, m: int, i: nat)
    requires m >= 1
    ensures ParabolValue(peak, m, i + m) == -ParabolValue(peak, m, i)
  {
    var q, r := i / m, i % m;
    assert i + m == (q + 1) * m + r;
    DivModUnique(i + m, m, q + 1, r);
  }

  /** Within a segment the integer factor lies between -(m*m)/4 (mid-segment) and 0. */
  lemma CurveRange(m: int, r: int)
    requires 0 <= r < m
    ensures -(m * m) <= 4 * Curve(m, r) <= 0
  {
    MulNonNegativeInt(r, m - r);
    assert Curve(m, r) == -(r * (m - r));
    var d := m - 2 * r;
    assert m * m + 4 * Curve(m, r) == d * d;
    if d < 0 {
      MulNonNegativeInt(-d, -d);
    } else {
      MulNonNegativeInt(d, d);
    }
  }

  /** With a non-negative amplitude, even segments are non-negative and odd ones
      non-positive. */
  lemma ParabolSign(amplitude: real, m: int, i: nat)
    requires m >= 1 && amplitude >= 0.0
    ensures (i / m) % 2 == 0 ==> ParabolValue(ParabolPeak(amplitude, m), m, i) >= 0.0
    ensures (i / m) % 2 == 1 ==> ParabolValue(ParabolPeak(amplitude, m), m, i) <= 0.0
  {
    var peak := ParabolPeak(amplitude, m);
    var c := Curve(m, i % m);
    CurveRange(m, i % m);
    assert peak >= 0.0 by {
      MulNonNegativeInt(m, m);
      MulNonNegative(amplitude, 4.0 / (m * m) as real);
    }
    MulNonNegative(peak, -(c as real));
    assert ParabolValue(peak, m, i) == SegmentSign(peak, i / m) * c as real;
  }

  /** The scale `4 / (m*m)` makes every value at most |amplitude| in size: the
      parabola peaks at m*m / 4 mid-segment. */
  lemma ParabolBounded(amplitude: real, m: int, i: nat)
    requires m >= 1
    ensures Abs(ParabolValue(ParabolPeak(amplitude, m), m, i)) <= Abs(amplitude)
  {
    ParabolMagnitude(ParabolPeak(amplitude, m), m, i);
    PeakTimesCurve(amplitude, m, i % m);
  }

  /** The peak scale times the integer factor anywhere in a segment is at most
      |amplitude| in size. */
  lemma PeakTimesCurve(amplitude: real, m: int, r: int)
    requires 0 <= r < m
    ensures Abs(ParabolPeak(amplitude, m) * Curve(m, r) as real) <= Abs(amplitude)
  {
    var c := Curve(m, r);
    CurveRange(m, r);
    var mm := (m * m) as real;
    var frac := (-4 * c) as real / mm;
    FractionAtMostOne(-4 * c, m * m);
    assert frac * mm == -4.0 * c as real;
    ScaleByQuarter(amplitude, mm, c as real, frac);
    AbsNegate(ParabolPeak(amplitude, m) * c as real, amplitude * frac);
    ScaledBelow(amplitude, frac);
  }

  lemma AbsNegate(x: real, y: real)
    requires x == -y
    ensures Abs(x) == Abs(y)
  {
  }

  /** The segment sign does not change the size of a value. */
  lemma ParabolMagnitude(peak: real, m: int, i: nat)
    requires m >= 1
    ensures Abs(ParabolValue(peak, m, i)) == Abs(peak * Curve(m, i % m) as real)
  {
    var c := Curve(m, i % m) as real;
    if (i / m) % 2 == 0 {
      assert ParabolValue(peak, m, i) == -(peak * c);
    }
  }

  lemma FractionAtMostOne(p: int, q: int)
    requires 0 <= p <= q && q >= 1
    ensures 0.0 <= p as real / q as real <= 1.0
  {
    var u := 1.0 / q as real;
    assert u * q as real == 1.0;
    assert u > 0.0;
    assert p as real / q as real == p as real * u;
    assert 1.0 - p as real / q as real == (q - p) as real * u;
    MulNonNegative(p as real, u);
    MulNonNegative((q - p) as real, u);
  }

  lemma ScaleByQuarter(a: real, mm: real, c: real, f: real)
    requires mm > 0.0 && f * mm == -4.0 * c
    ensures a * (4.0 / mm) * c == -(a * f)
  {
    assert (4.0 / mm) * c == -f;
  }

  lemma ScaledBelow(x: real, f: real)
    requires 0.0 <= f <= 1.0
    ensures Abs(x * f) <= Abs(x)
  {
    if x >= 0.0 {
      MulNonNegative(x, f);
      MulNonNegative(x, 1.0 - f);
    } else {
      MulNonNegative(-x, f);
      MulNonNegative(-x, 1.0 - f);
    }
  }

  /** The loop state of `oParabolWT` before index i: `a` starts segment k of m
      samples, `b` ends it, i lies in (a, b], and `amp` carries segment k's sign. */
  ghost predicate ParabolCursor(peak: real, m: int, i: int, k: int, a: int, b: int, amp: real) {
    m >= 1 && a == k * m && b == a + m && 1 <= i - a <= m && amp == SegmentSign(peak, k)
  }

  /** One pass of the `oParabolWT` loop body at i: the segment test moves the cursor
      on exactly at a multiple of m, and the entry written is the table value at i. */
  lemma ParabolStep(peak: real, m: int, i: nat, k: int, a: int, b: int, amp: real,
                    k': int, a': int, b': int, amp': real)
    requires ParabolCursor(peak, m, i, k, a, b, amp)
    requires if i % m == 0 then k' == k + 1 && a' == a + m && b' == b + m && amp' == -amp
             else k' == k && a' == a && b' == b && amp' == amp
    ensures ParabolCursor(peak, m, i + 1, k', a', b', amp')
    ensures amp' * (i - a') as real * (i - b') as real == ParabolValue(peak, m, i)
  {
    SegmentCursor(i, k, m, i - a);
    if i % m == 0 {
      assert a' == k' * m;
    }
    DivModUnique(i, m, k', i - a');
    assert (i - a') as real * (i - b') as real == Curve(m, i - a') as real;
  }

  /** Index bookkeeping for the `oParabolWT` loop: with `i == k*m + d` and d in 1..m,
      `i % m == 0` exactly when d == m, and then i starts segment k + 1. */
  lemma SegmentCursor(i: int, k: int, m: int, d: int)
    requires m >= 1 && 1 <= d <= m && i == k * m + d && i >= 0
    ensures d == m ==> i / m == k + 1 && i % m == 0
    ensures d < m ==> i / m == k && i % m == d
  {
    if d == m {
      assert i == (k + 1) * m + 0;
      DivModUnique(i, m, k + 1, 0);
    } else {
      DivModUnique(i, m, k, d);
    }
  }

  // ---- oSineWT ----------------------------------------------------------------------

  /** The rotating phasor of `oSineWT`: x is the cosine part, y the sine part. */
  datatype Point = Point(x: real, y: real)

  /** The starting phasor (amplitude cos, amplitude sin) for given cosine and sine. */
  function Phasor(amplitude: real, c: real, s: real): Point {
    Point(amplitude * c, amplitude * s)
  }

  /** One rotation by the angle whose cosine and sine are cs and sn. */
  function Rotate(p: Point, cs: real, sn: real): Point {
    Point(cs * p.x - sn * p.y, sn * p.x + cs * p.y)
  }

  /** The phasor after n rotations. */
  function Rotation(p: Point, cs: real, sn: real, n: nat): Point
    decreases n
  {
    if n == 0 then p else Rotate(Rotation(p, cs, sn, n - 1), cs, sn)
  }

  function Radius2(p: Point): real {
    p.x * p.x + p.y * p.y
  }

  /** A rotation (cs*cs + sn*sn == 1) keeps the squared radius. */
  lemma RotateKeepsRadius(p: Point, cs: real, sn: real)
    requires cs * cs + sn * sn == 1.0
    ensures Radius2(Rotate(p, cs, sn)) == Radius2(p)
  {
    var x, y := p.x, p.y;
    calc {
      Radius2(Rotate(p, cs, sn));
      (cs * x - sn * y) * (cs * x - sn * y) + (sn * x + cs * y) * (sn * x + cs * y);
      (cs * cs + sn * sn) * (x * x) + (cs * cs + sn * sn) * (y * y);
      x * x + y * y;
    }
  }

  lemma {:induction false} RotationKeepsRadius(p: Point, cs: real, sn: real, n: nat)
    requires cs * cs + sn * sn == 1.0
    ensures Radius2(Rotation(p, cs, sn, n)) == Radius2(p)
    decreases n
  {
    if n > 0 {
      RotationKeepsRadius(p, cs, sn, n - 1);
      RotateKeepsRadius(Rotation(p, cs, sn, n - 1), cs, sn);
    }
  }

  /** Started on the circle of radius |amplitude| (a true cosine and sine), every
      sample of the `oSineWT` table stays on it, so its square is at most amplitude^2. */
  lemma SineTableOnCircle(amplitude: real, c0: real, s0: real, cs: real, sn: real, n: nat)
    requires c0 * c0 + s0 * s0 == 1.0 && cs * cs + sn * sn == 1.0
    ensures var p := Rotation(Phasor(amplitude, c0, s0), cs, sn, n);
            Radius2(p) == amplitude * amplitude && p.y * p.y <= amplitude * amplitude
  {
    var p0 := Phasor(amplitude, c0, s0);
    RotationKeepsRadius(p0, cs, sn, n);
    PhasorRadius(amplitude, c0, s0);
    SquareNonNegative(Rotation(p0, cs, sn, n).x);
  }

  lemma PhasorRadius(amplitude: real, c0: real, s0: real)
    requires c0 * c0 + s0 * s0 == 1.0
    ensures Radius2(Phasor(amplitude, c0, s0)) == amplitude * amplitude
  {
    var a2 := amplitude * amplitude;
    assert (amplitude * c0) * (amplitude * c0) == a2 * (c0 * c0);
    assert (amplitude * s0) * (amplitude * s0) == a2 * (s0 * s0);
    assert a2 * (c0 * c0) + a2 * (s0 * s0) == a2 * (c0 * c0 + s0 * s0);
  }

  lemma SquareNonNegative(x: real)
    ensures x * x >= 0.0
  {
    if x < 0.0 {
      MulNonNegative(-x, -x);
    } else {
      MulNonNegative(x, x);
    }
  }

  /** The `oscillator` struct. */
  class Osc {
    const data: array<real>
    var width: int
    var nharm: int
    var phase: real
    var delta: real
    var frequency: real
    var amplitude: real
    var eax: real
    var ebx: real
    var ecx: real
    var fm: real
    var am: real
    var pwm: real
    var warp: real
    var out: real

    /** An oscillator over the wavetable `table` of `w` entries, all else zero. */
    constructor (table: array<real>, w: int)
      ensures data == table && width == w
      ensures nharm == 0 && phase == 0.0 && delta == 0.0 && frequency == 0.0
      ensures amplitude == 0.0 && eax == 0.0 && ebx == 0.0 && ecx == 0.0
      ensures fm == 0.0 && am == 0.0 && pwm == 0.0 && warp == 0.0 && out == 0.0
    {
      data, width := table, w;
      nharm, phase, delta, frequency, amplitude := 0, 0.0, 0.0, 0.0, 0.0;
      eax, ebx, ecx, fm, am, pwm, warp, out := 0.0, 0.0, 0.0, 0.0, 0.0, 0.0, 0.0, 0.0;
    }

    /** `oscillator_init` */
    method Init()
      modifies this`nharm, this`phase, this`amplitude, this`fm, this`am, this`pwm, this`warp
      ensures nharm == 8 && phase == 0.0 && amplitude == 1.0
      ensures fm == 0.0 && am == 0.0 && pwm == 0.0 && warp == 0.0
    {
      nharm := 8;
      phase := 0.0;
      amplitude := 1.0;
      fm := 0.0;
      am := 0.0;
      pwm := 0.0;
      warp := 0.0;
    }

    /** `set_delta` */
    method SetDelta(hz: real)
      modifies this`frequency, this`delta
      ensures frequency == hz && delta == Delta(hz)
    {
      frequency := hz;
      delta := frequency * TAO / SAMPLE_RATE as real;
    }

    /** `oSine`: wraps at TAO. */
    method Sine(sin: real -> real)
      modifies this`out, this`phase
      ensures out == sin(old(phase)) * amplitude
      ensures phase == Advance(old(phase), delta + fm, TAO)
    {
      out := sin(phase) * amplitude;
      phase := phase + (delta + fm);
      if phase >= TAO {
        phase := phase - TAO;
      }
    }

    /** `oRamp`: output from the old phase, wrap at PI. */
    method Ramp()
      modifies this`out, this`phase
      ensures out == RampOut(old(phase), amplitude)
      ensures phase == Advance(old(phase), delta + fm, PI)
    {
      out := phase / PI * amplitude;
      phase := phase + (delta + fm);
      if phase >= PI {
        phase := phase - TAO;
      }
    }

    /** `oSawtooth`: the ramp reversed. */
    method Sawtooth()
      modifies this`out, this`phase
      ensures out == SawOut(old(phase), amplitude)
      ensures phase == Advance(old(phase), delta + fm, PI)
    {
      out := -phase / PI * amplitude;
      phase := phase + (delta + fm);
      if phase >= PI {
        phase := phase - TAO;
      }
    }

    /** `oSquare`: `phase` wraps at PI, `eax` at PI + pwm. */
    method Square()
      modifies this`out, this`phase, this`eax
      ensures out == SquareOut(old(phase), old(eax), warp)
      ensures phase == Advance(old(phase), delta + fm, PI)
      ensures eax == EaxRun(old(eax), [delta + fm], pwm)
    {
      var saw := phase / PI;
      var ramp := -eax / PI;
      out := saw * warp + ramp * (1.0 - warp);
      phase := phase + (delta + fm);
      eax := eax + (delta + fm);
      if phase >= PI {
        phase := phase - TAO;
      }
      if eax >= PI + pwm {
        eax := eax - TAO;
      }
    }

    /** `oTomisawa`: two cosines fed back through `eax` and `ebx`. */
    method Tomisawa(cos: real -> real)
      modifies this`ecx, this`phase, this`eax, this`ebx, this`out
      ensures ecx == Coefficient(frequency)
      ensures phase == Advance(old(phase), delta + fm, PI)
      ensures eax == Feedback(cos(ArgA(phase, ecx, old(eax))), old(eax))
      ensures ebx == Feedback(cos(ArgB(phase, ecx, old(ebx), pwm)), old(ebx))
      ensures out == (cos(ArgA(phase, ecx, old(eax))) - cos(ArgB(phase, ecx, old(ebx), pwm))) * amplitude
    {
      var c := 1.0;
      c := c * (1.0 * (1.0 - 0.0001 * frequency));
      if c < 0.0 {
        c := 0.0;
      }
      var p := phase + (delta + fm);
      if p >= PI {
        p := p - TAO;
      }
      var a, b := eax, ebx;
      var oa := cos(ArgA(p, c, a));
      var ea := 0.5 * (oa + a);
      var ob := cos(ArgB(p, c, b, pwm));
      var eb := 0.5 * (ob + b);
      ecx, phase, eax, ebx, out := c, p, ea, eb, (oa - ob) * amplitude;
    }

    /** `oTriangle`: rise and fall slopes by guarded division, one wrap before use. */
    method Triangle(sqrt: real -> real)
      modifies this`out, this`phase
      ensures out == TriangleOut(TrianglePhase(old(phase)), sqrt(TrianglePhase(old(phase))), amplitude, pwm)
      ensures phase == TrianglePhase(old(phase)) + (delta + fm)
    {
      if phase > TAO {
        phase := phase - TAO;
      }
      out := TriangleOut(phase, sqrt(phase), amplitude, pwm);
      phase := phase + (delta + fm);
    }

    /** `oParabolWT`: fills `data[0 .. width-1]` with parabolic segments of
        m = SegmentLength(frequency) samples. */
    method ParabolWT()
      requires 0.0 < frequency <= SAMPLE_RATE as real / 2.0 && width <= data.Length
      modifies data
      ensures var m := SegmentLength(frequency);
              forall i :: 0 <= i < width ==> data[i] == ParabolValue(ParabolPeak(amplitude, m), m, i)
      ensures forall i :: 0 <= i < data.Length && width <= i ==> data[i] == old(data[i])
    {
      var amp := amplitude;
      var m := SegmentLength(frequency);
      var a := -m;
      var b := 0;
      amp := amp * (4.0 / (m * m) as real);
      ghost var peak := ParabolPeak(amplitude, m);
      assert amp == peak;
      ghost var k := -1;
      var i := 0;
      while i < width
        invariant 0 <= i && (i <= width || i == 0)
        invariant ParabolCursor(peak, m, i, k, a, b, amp)
        invariant forall j :: 0 <= j < i ==> data[j] == ParabolValue(peak, m, j)
        invariant forall j :: i <= j < data.Length ==> data[j] == old(data[j])
      {
        ghost var k0, a0, b0, amp0 := k, a, b, amp;
        if i % m == 0 {
          a := a + m;
          b := b + m;
          amp := -amp;
          k := k + 1;
        }
        ParabolStep(peak, m, i, k0, a0, b0, amp0, k, a, b, amp);
        data[i] := amp * (i - a) as real * (i - b) as real;
        i := i + 1;
      }
    }

    /** `oSineWT`: rotates `(amplitude cos phase, amplitude sin phase)` by `delta` once
        per entry and stores the sine part in `data[1 .. width-1]`; `data[0]` is not
        written. */
    method SineWT(sin: real -> real, cos: real -> real)
      requires width <= data.Length
      modifies data
      ensures forall i :: 1 <= i < width ==>
                data[i] == Rotation(Phasor(amplitude, cos(phase), sin(phase)),
                                    cos(delta), sin(delta), i).y
      ensures forall i :: 0 <= i < data.Length && (i == 0 || width <= i) ==> data[i] == old(data[i])
    {
      var d := delta;
      var x := amplitude * cos(phase);
      var y := amplitude * sin(phase);
      var cs := cos(d);
      var sn := sin(d);
      ghost var p0 := Phasor(amplitude, cos(phase), sin(phase));
      var i := 1;
      while i < width
        invariant 1 <= i && (i <= width || i == 1)
        invariant Point(x, y) == Rotation(p0, cs, sn, i - 1)
        invariant forall j :: 1 <= j < i ==> data[j] == Rotation(p0, cs, sn, j).y
        invariant forall j :: 0 <= j < data.Length && (j == 0 || i <= j) ==> data[j] == old(data[j])
      {
        d := x;
        x := cs * x - sn * y;
        y := sn * d + cs * y;
        data[i] := y;
        i := i + 1;
      }
      assert p0 == Phasor(amplitude, cos(phase), sin(phase));
      assert cs == cos(delta) && sn == sin(delta);
    }
  }
}
