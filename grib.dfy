/** The audio path and the line drawer of grib.c: the I2S callback, which plays the
    wave table through a 32-bit fixed-point phase accumulator and feeds every 15th
    frame to the telemetry ring, and `bresenham`, the integer line walk. */
module Grib {
  import Containers
  import opened Numeric

  const TABLE_LENGTH: int := 2048
  /** `pos_max = 0x10000 * WAVE_TABLE_LENGTH`: 16 fraction bits above the table index. */
  const POS_MAX: int := 0x10000 * TABLE_LENGTH
  const UINT_RANGE: int := 0x1_0000_0000
  const INT_HALF: int := 0x8000_0000
  /** Frames between two ring feeds (`i % 0xF == 0`). */
  const FEED_EVERY: int := 15

  predicate IsU32(x: int) { 0 <= x < UINT_RANGE }
  predicate IsI16(x: int) { -0x8000 <= x < 0x8000 }

  /** `pos += step; if (pos >= pos_max) pos -= pos_max;` in 32-bit unsigned arithmetic. */
  function NextPos(pos: int, step: int): (p: int)
    requires IsU32(pos) && IsU32(step)
    ensures IsU32(p)
  {
    var sum := (pos + step) % UINT_RANGE;
    if sum >= POS_MAX then sum - POS_MAX else sum
  }

  /** The table index `pos >> 16u`. */
  function TableIndex(pos: int): (k: int)
    requires IsU32(pos)
    ensures 0 <= k && (pos < POS_MAX ==> k < TABLE_LENGTH)
  {
    pos / 0x10000
  }

  /** With `pos < pos_max` and `step <= pos_max` the addition does not overflow and one
      subtraction brings the position back below `pos_max`: the result is the sum
      reduced modulo `pos_max`, so the next table read is in bounds. */
  lemma NextPosStaysInTable(pos: int, step: int)
    requires 0 <= pos < POS_MAX && 0 <= step <= POS_MAX
    ensures pos + step < UINT_RANGE
    ensures NextPos(pos, step) < POS_MAX
    ensures NextPos(pos, step) == (pos + step) % POS_MAX
    ensures TableIndex(NextPos(pos, step)) < TABLE_LENGTH
  {
  }

  /** The position after n frames. */
  function PosAfter(pos: int, step: int, n: nat): (p: int)
    requires 0 <= pos < POS_MAX && 0 <= step <= POS_MAX
    ensures 0 <= p < POS_MAX
    decreases n
  {
    if n == 0 then pos
    else
      var q := PosAfter(pos, step, n - 1);
      NextPosStaysInTable(q, step);
      NextPos(q, step)
  }

  lemma ReduceThenAdd(a: int, b: int)
    ensures (a % POS_MAX + b) % POS_MAX == (a + b) % POS_MAX
  {
  }

  /** After n frames the position has advanced by n steps modulo `pos_max`. */
  lemma {:induction false} PosAfterIsModular(pos: int, step: int, n: nat)
    requires 0 <= pos < POS_MAX && 0 <= step <= POS_MAX
    ensures PosAfter(pos, step, n) == (pos + n * step) % POS_MAX
    decreases n
  {
    if n > 0 {
      PosAfterIsModular(pos, step, n - 1);
      var q := PosAfter(pos, step, n - 1);
      var a := pos + (n - 1) * step;
      assert q == a % POS_MAX;
      NextPosStaysInTable(q, step);
      assert PosAfter(pos, step, n) == (q + step) % POS_MAX;
      ReduceThenAdd(a, step);
      assert a + step == pos + n * step;
    } else {
      assert pos + n * step == pos;
    }
  }

  /** The int32 that a 32-bit unsigned word denotes (two's complement). */
  function ToInt32(u: int): (r: int)
    requires IsU32(u)
    ensures -INT_HALF <= r < INT_HALF
    ensures r % UINT_RANGE == u
  {
    if u >= INT_HALF then u - UINT_RANGE else u
  }

  /** The sample word `(vol * wave_table[k]) << 8u` stored in an `int32_t`: `vol` is
      `uint`, so the `int16_t` table entry is converted to unsigned, the product and the
      shift wrap modulo 2^32, and the result is reinterpreted as signed. */
  function Word(vol: int, w: int): (s: int)
    requires IsU32(vol) && IsI16(w)
    ensures -INT_HALF <= s < INT_HALF
  {
    var product := (vol * (w % UINT_RANGE)) % UINT_RANGE;
    ToInt32((product * 0x100) % UINT_RANGE)
  }

  lemma ProductBounds(vol: int, w: int)
    requires 0 <= vol <= 255 && IsI16(w)
    ensures -255 * 0x8000 <= vol * w <= 255 * 0x7FFF
  {
    if w >= 0 {
      assert vol * w <= 255 * w;
    } else {
      assert vol * (-w) <= 255 * (-w);
    }
  }

  /** For `vol <= 255` nothing wraps: the word is exactly `vol * w * 256`. */
  lemma WordIsScaledProduct(vol: int, w: int)
    requires 0 <= vol <= 255 && IsI16(w)
    ensures Word(vol, w) == vol * w * 256
  {
    ProductBounds(vol, w);
    var p := vol * w;
    var wu := w % UINT_RANGE;
    var k := if w < 0 then vol else 0;
    assert vol * wu == p + k * UINT_RANGE by {
      if w < 0 {
        DivModUnique(w, UINT_RANGE, -1, w + UINT_RANGE);
        assert vol * (w + UINT_RANGE) == p + vol * UINT_RANGE;
      } else {
        DivModUnique(w, UINT_RANGE, 0, w);
      }
    }
    var product := (vol * wu) % UINT_RANGE;
    var shifted := (product * 0x100) % UINT_RANGE;
    if p >= 0 {
      DivModUnique(vol * wu, UINT_RANGE, k, p);
      DivModUnique(product * 0x100, UINT_RANGE, 0, p * 0x100);
      assert shifted == p * 0x100 < INT_HALF;
    } else {
      DivModUnique(vol * wu, UINT_RANGE, k - 1, p + UINT_RANGE);
      assert product * 0x100 == p * 0x100 + 0x100 * UINT_RANGE;
      DivModUnique(product * 0x100, UINT_RANGE, 0xFF, p * 0x100 + UINT_RANGE);
      assert shifted == p * 0x100 + UINT_RANGE >= INT_HALF;
    }
  }

  predicate ValidTable(table: seq<int>) {
    |table| == TABLE_LENGTH && forall k :: 0 <= k < |table| ==> IsI16(table[k])
  }

  /** The word of frame i of a callback entered at position `pos`. */
  function FrameWord(table: seq<int>, vol: int, pos: int, step: int, i: nat): (r: int)
    requires ValidTable(table) && IsU32(vol)
    requires 0 <= pos < POS_MAX && 0 <= step <= POS_MAX
    ensures -INT_HALF <= r < INT_HALF
    ensures 0 <= vol <= 255 ==> r == vol * table[TableIndex((pos + i * step) % POS_MAX)] * 256
  {
    PosAfterIsModular(pos, step, i);
    var w := table[TableIndex(PosAfter(pos, step, i))];
    if 0 <= vol <= 255 then WordIsScaledProduct(vol, w); Word(vol, w) else Word(vol, w)
  }

  /** The words pushed onto the ring during the first n frames of a callback: the word
      of every frame whose index is a multiple of 15, in frame order. */
  function Fed(table: seq<int>, vol: int, pos: int, step: int, n: nat): seq<int>
    requires ValidTable(table) && IsU32(vol)
    requires 0 <= pos < POS_MAX && 0 <= step <= POS_MAX
    decreases n
  {
    if n == 0 then []
    else
      Fed(table, vol, pos, step, n - 1)
        + (if (n - 1) % FEED_EVERY == 0 then [FrameWord(table, vol, pos, step, n - 1)] else [])
  }

  /** n frames push ceil(n / 15) words, and push j is the word of frame 15 j. */
  lemma {:induction false} FedFrames(table: seq<int>, vol: int, pos: int, step: int, n: nat)
    requires ValidTable(table) && IsU32(vol)
    requires 0 <= pos < POS_MAX && 0 <= step <= POS_MAX
    ensures |Fed(table, vol, pos, step, n)| == (n + FEED_EVERY - 1) / FEED_EVERY
    ensures forall j :: 0 <= j < |Fed(table, vol, pos, step, n)| ==>
              Fed(table, vol, pos, step, n)[j] == FrameWord(table, vol, pos, step, FEED_EVERY * j)
    decreases n
  {
    if n > 0 {
      FedFrames(table, vol, pos, step, n - 1);
      if (n - 1) % FEED_EVERY == 0 {
        assert (n - 1) == FEED_EVERY * ((n + FEED_EVERY - 2) / FEED_EVERY);
      }
    }
  }

  /** Both words of frame k hold w. */
  predicate Stereo(samples: seq<int>, k: int, w: int) {
    0 <= 2 * k && 2 * k + 1 < |samples| && samples[2 * k] == w && samples[2 * k + 1] == w
  }

  /** Filling frame i with its word extends the run of filled frames by one. */
  lemma StereoExtend(samples: seq<int>, i: nat, table: seq<int>, vol: int, pos: int, step: int)
    requires ValidTable(table) && IsU32(vol) && 0 <= pos < POS_MAX && 0 <= step <= POS_MAX
    requires 2 * i + 1 < |samples|
    requires forall k :: 0 <= k < i ==> Stereo(samples, k, FrameWord(table, vol, pos, step, k))
    ensures var w := FrameWord(table, vol, pos, step, i);
            forall k :: 0 <= k < i + 1 ==>
              Stereo(samples[2 * i := w][2 * i + 1 := w], k, FrameWord(table, vol, pos, step, k))
  {
  }

  /** `audio_buffer_t` as the callback uses it: `max_sample_count` stereo frames of two
      `int32_t` words each, and the `sample_count` it reports back. */
  class AudioBuffer {
    const samples: array<int>
    const maxSampleCount: int
    var sampleCount: int

    ghost predicate Valid()
      reads this
    {
      0 <= maxSampleCount && samples.Length == 2 * maxSampleCount
    }

    constructor (frames: nat)
      ensures Valid() && fresh(samples) && maxSampleCount == frames && sampleCount == 0
    {
      samples := new int[2 * frames];
      maxSampleCount := frames;
      sampleCount := 0;
    }
  }

  /** The globals of grib.c the callback works on: the wave table, the telemetry ring
      `cbuffer`, the phase `pos`, its increment `step` and the volume `vol`. */
  class Synth {
    const waveTable: array<int>
    const cbuffer: Containers.Wavering
    var pos: int
    var step: int
    var vol: int

    ghost predicate Valid()
      reads this, waveTable, cbuffer
    {
      ValidTable(waveTable[..]) && cbuffer.Valid() && waveTable != cbuffer.data
      && IsU32(pos) && IsU32(step) && IsU32(vol)
    }

    /** The static initialisers: a zeroed table, `step = 0x200000`, `pos = 0`,
        `vol = 0x5F`, and `cbuffer` after `wavering_init`. */
    constructor ()
      ensures Valid() && fresh(waveTable) && fresh(cbuffer)
      ensures waveTable[..] == seq(TABLE_LENGTH, _ => 0)
      ensures pos == 0 && step == 0x200000 && vol == 0x5F
      ensures cbuffer.i == 0 && cbuffer.o == 0
    {
      waveTable := new int[TABLE_LENGTH](_ => 0);
      cbuffer := new Containers.Wavering();
      pos, step, vol := 0, 0x200000, 0x5F;
    }

    /** `i2s_callback_func`, with `take_audio_buffer` abstracted as `buffer` (null when
        no buffer is free) and `give_audio_buffer` as returning. A null buffer leaves
        everything as it was; otherwise every frame gets the same word on both channels,
        every 15th word goes to the ring, and the phase moves n steps on. */
    method Callback(buffer: AudioBuffer?)
      requires Valid() && pos < POS_MAX && step <= POS_MAX
      requires buffer != null ==>
                 buffer.Valid() && buffer.samples != waveTable && buffer.samples != cbuffer.data
      modifies this`pos, cbuffer, cbuffer.data, buffer
      modifies if buffer == null then {} else {buffer.samples}
      ensures Valid()
      ensures buffer == null ==> pos == old(pos) && cbuffer.State() == old(cbuffer.State())
      ensures buffer != null ==>
                var n := buffer.maxSampleCount;
                && buffer.sampleCount == n
                && pos == PosAfter(old(pos), step, n)
                && (forall i :: 0 <= i < n ==>
                      Stereo(buffer.samples[..], i, FrameWord(waveTable[..], vol, old(pos), step, i)))
                && cbuffer.State() == Containers.PutAll(old(cbuffer.State()), Fed(waveTable[..], vol, old(pos), step, n))
    {
      if buffer == null {
        return;
      }
      var samples := buffer.samples;
      ghost var pos0 := pos;
      ghost var ring0 := cbuffer.State();
      ghost var table := waveTable[..];
      var i := 0;
      while i < buffer.maxSampleCount
        invariant 0 <= i <= buffer.maxSampleCount
        invariant waveTable[..] == table && cbuffer.Valid()
        invariant 0 <= pos < POS_MAX && pos == PosAfter(pos0, step, i)
        invariant forall k :: 0 <= k < i ==> Stereo(samples[..], k, FrameWord(table, vol, pos0, step, k))
        invariant cbuffer.State() == Containers.PutAll(ring0, Fed(table, vol, pos0, step, i))
      {
        ghost var fed := Fed(table, vol, pos0, step, i);
        ghost var before := samples[..];
        assert Word(vol, table[TableIndex(pos)]) == FrameWord(table, vol, pos0, step, i);
        var w := PlayFrame(samples, i);
        StereoExtend(before, i, table, vol, pos0, step);
        if i % FEED_EVERY == 0 {
          Containers.PutAllSnoc(ring0, fed, w);
          assert Fed(table, vol, pos0, step, i + 1) == fed + [w];
        } else {
          assert Fed(table, vol, pos0, step, i + 1) == fed;
        }
        i := i + 1;
      }
      buffer.sampleCount := buffer.maxSampleCount;
    }
 
    /** One pass of the callback's loop for frame i: the frame's word goes to both
        channels, to the ring when i is a multiple of 15, and the phase moves one step. */
    method PlayFrame(samples: array<int>, i: int) returns (w: int)
      requires cbuffer.Valid() && ValidTable(waveTable[..]) && IsU32(vol)
      requires 0 <= pos < POS_MAX && 0 <= step <= POS_MAX
      requires samples != waveTable && samples != cbuffer.data && 0 <= i && 2 * i + 1 < samples.Length
      modifies this`pos, cbuffer, cbuffer.data, samples
      ensures w == Word(vol, waveTable[TableIndex(old(pos))])
      ensures samples[..] == old(samples[..])[2 * i := w][2 * i + 1 := w]
      ensures cbuffer.Valid()
      ensures cbuffer.State() == if i % FEED_EVERY == 0 then Containers.Put(old(cbuffer.State()), w)
                                 else old(cbuffer.State())
      ensures pos == NextPos(old(pos), step) && pos < POS_MAX
    {
      w := Word(vol, waveTable[pos / 0x10000]);
      samples[2 * i] := w;
      samples[2 * i + 1] := w;
      if i % FEED_EVERY == 0 {
        cbuffer.Set(samples[2 * i]);
      }
      NextPosStaysInTable(pos, step);
      pos := NextPos(pos, step);
    }
  }

  /** C `/ 2` on `int`: truncation toward zero. */
  function Half(x: int): (h: int)
    ensures x >= 0 ==> 0 <= 2 * h <= x < 2 * h + 2
    ensures x < 0 ==> 2 * h - 2 < x <= 2 * h <= 0
  {
    if x >= 0 then x / 2 else -((-x) / 2)
  }

  function IntAbs(x: int): (r: int)
    ensures r >= 0 && (r == x || r == -x)
  {
    if x < 0 then -x else x
  }

  function Max(a: int, b: int): (r: int)
    ensures r >= a && r >= b && (r == a || r == b)
  {
    if a > b then a else b
  }

  /** k unit moves from `a` in direction `s` (1 or -1). */
  function Toward(a: int, s: int, k: int): int {
    if s == 1 then a + k else a - k
  }

  /** One step of a pixel walk moves a coordinate by 0 or by its direction. */
  predicate MovesBy(a: int, b: int, s: int) {
    b == a || b == a + s
  }

  lemma ShortfallAtLeastOne(total: int, done: int, m: int)
    requires 0 <= done < total && m >= 0
    ensures (total - done) * m >= m
  {
    assert (total - done) * m == (total - done - 1) * m + m;
    MulNonNegativeInt(total - done - 1, m);
  }

  /** In an x-major walk (dx > dy) the error term `e0 - px*dy + py*dx` stays in [0, dx):
      when x is done, y is done too. */
  lemma XMajorEndsTogether(dx: int, dy: int, e0: int, py: int)
    requires dx > dy >= 0 && 0 <= e0 < dx
    requires 0 <= e0 - dx * dy + py * dx < dx
    ensures py == dy
  {
    assert dx * dy == dy * dx;
    PinnedMultiple(py, dy, dx);
  }

  /** In an x-major walk, once y is done the error term is at least dy, so y does not
      move again before x is done. */
  lemma XMajorYStops(dx: int, dy: int, e0: int, px: int)
    requires dx > dy >= 0 && 0 <= e0 && 0 <= px < dx
    ensures e0 - px * dy + dy * dx >= dy
  {
    assert e0 - px * dy + dy * dx == e0 + (dx - px) * dy;
    ShortfallAtLeastOne(dx, px, dy);
  }

  /** In a y-major walk (dy >= dx, dy > 0) the error term stays in (-dy, 0]: when y is
      done, x is done too. */
  lemma YMajorEndsTogether(dx: int, dy: int, e0: int, px: int)
    requires dy >= dx >= 0 && dy > 0 && -dy < e0 <= 0
    requires -dy < e0 - px * dy + dy * dx <= 0
    ensures px == dx
  {
    assert dy * dx == dx * dy;
    PinnedMultiple(px, dx, dy);
  }

  /** In a y-major walk, once x is done the error term is at most -dx, so x does not
      move again before y is done. */
  lemma YMajorXStops(dx: int, dy: int, e0: int, py: int)
    requires dy >= dx >= 0 && e0 <= 0 && 0 <= py < dy
    ensures e0 - dx * dy + py * dx <= -dx
  {
    assert e0 - dx * dy + py * dx == e0 - (dy - py) * dx;
    ShortfallAtLeastOne(dy, py, dx);
  }

  /** The arithmetic invariant of the walk: `px`, `py` count the x and y moves so
      far, and the error term is `e0 - px*dy + py*dx`, kept in [0, dx) when x is the
      major axis and in (-dy, 0] when y is. */
  ghost predicate WalkError(dx: int, dy: int, e0: int, err: int, px: int, py: int) {
    0 <= px <= dx && 0 <= py <= dy
    && err == e0 - px * dy + py * dx
    && (dx > dy ==> 0 <= e0 < dx && 0 <= err < dx)
    && (dx <= dy ==> dy == 0 || (-dy < e0 <= 0 && -dy < err <= 0))
  }

  /** One iteration of the loop keeps the invariant: the major coordinate moves, the
      minor one moves only while it is short of its end, and the measure
      `(dx - px) + (dy - py)` goes down. */
  lemma WalkErrorStep(dx: int, dy: int, e0: int, err: int, px: int, py: int)
    requires WalkError(dx, dy, e0, err, px, py) && (px != dx || py != dy)
    ensures var mx, my := err > -dx, err < dy;
            && WalkError(dx, dy, e0, err - (if mx then dy else 0) + (if my then dx else 0),
                         px + (if mx then 1 else 0), py + (if my then 1 else 0))
            && (dx > dy ==> mx) && (dx <= dy ==> my)
  {
    if dx > dy {
      if px == dx {
        XMajorEndsTogether(dx, dy, e0, py);
      }
      if py == dy {
        XMajorYStops(dx, dy, e0, px);
      }
    } else {
      if py == dy {
        YMajorEndsTogether(dx, dy, e0, px);
      }
      if px == dx {
        YMajorXStops(dx, dy, e0, py);
      }
    }
    assert (px + 1) * dy == px * dy + dy;
    assert (py + 1) * dx == py * dx + dx;
  }

  /** When both coordinates are at their end the counts are complete. */
  lemma WalkErrorEnd(dx: int, dy: int, e0: int, err: int, px: int, py: int)
    requires WalkError(dx, dy, e0, err, px, py)
    ensures dx > dy && px == dx ==> py == dy
    ensures dx <= dy && py == dy ==> px == dx
  {
    if dx > dy && px == dx {
      XMajorEndsTogether(dx, dy, e0, py);
    } else if dx <= dy && py == dy && dy > 0 {
      YMajorEndsTogether(dx, dy, e0, px);
    }
  }

  /** Consecutive pixels are one walk step apart. */
  predicate Stepwise(points: seq<(int, int)>, sx: int, sy: int) {
    forall k :: 0 <= k < |points| - 1 ==>
      MovesBy(points[k].0, points[k + 1].0, sx) && MovesBy(points[k].1, points[k + 1].1, sy)
  }

  /** Pixel k has x coordinate k moves from `x0` (if `onX`) or y coordinate k moves from
      `y0` (otherwise). */
  predicate MajorAxis(points: seq<(int, int)>, onX: bool, x0: int, sx: int, y0: int, sy: int) {
    forall k :: 0 <= k < |points| ==>
      if onX then points[k].0 == Toward(x0, sx, k) else points[k].1 == Toward(y0, sy, k)
  }

  /** The pixels of a walk that has made `px` x moves and `py` y moves: it starts at
      the start point, ends at the current point, moves stepwise, and counts one pixel
      per move of the major axis. */
  ghost predicate Walked(points: seq<(int, int)>, onX: bool, x0: int, sx: int, y0: int, sy: int,
                         px: int, py: int) {
    points != [] && points[0] == (x0, y0)
    && points[|points| - 1] == (Toward(x0, sx, px), Toward(y0, sy, py))
    && (if onX then px == |points| - 1 else py == |points| - 1)
    && Stepwise(points, sx, sy) && MajorAxis(points, onX, x0, sx, y0, sy)
  }

  /** One loop iteration, moving x if `mx` and y if `my` (the major axis always moving),
      extends the walk by the new point. */
  lemma ExtendWalk(points: seq<(int, int)>, onX: bool, x0: int, sx: int, y0: int, sy: int,
                   px: int, py: int, mx: bool, my: bool)
    requires Walked(points, onX, x0, sx, y0, sy, px, py) && (sx == 1 || sx == -1) && (sy == 1 || sy == -1)
    requires onX ==> mx
    requires !onX ==> my
    ensures var px', py' := px + (if mx then 1 else 0), py + (if my then 1 else 0);
            Walked(points + [(Toward(x0, sx, px'), Toward(y0, sy, py'))], onX, x0, sx, y0, sy, px', py')
  {
    var px', py' := px + (if mx then 1 else 0), py + (if my then 1 else 0);
    var q := points + [(Toward(x0, sx, px'), Toward(y0, sy, py'))];
    forall k | 0 <= k < |q| - 1
      ensures MovesBy(q[k].0, q[k + 1].0, sx) && MovesBy(q[k].1, q[k + 1].1, sy)
    {
      if k < |points| - 1 {
        assert q[k] == points[k] && q[k + 1] == points[k + 1];
      } else {
        assert q[k] == (Toward(x0, sx, px), Toward(y0, sy, py));
      }
    }
    forall k | 0 <= k < |q|
      ensures if onX then q[k].0 == Toward(x0, sx, k) else q[k].1 == Toward(y0, sy, k)
    {
      if k < |points| {
        assert q[k] == points[k];
      }
    }
    assert q[0] == points[0];
  }

  /** Along the major axis every pixel is one move further on, so the end point occurs
      only as the last pixel. */
  lemma EndNotEarlier(points: seq<(int, int)>, onX: bool, x0: int, sx: int, y0: int, sy: int,
                      x1: int, y1: int)
    requires points != [] && MajorAxis(points, onX, x0, sx, y0, sy)
    requires onX ==> x1 == Toward(x0, sx, |points| - 1)
    requires !onX ==> y1 == Toward(y0, sy, |points| - 1)
    ensures forall k :: 0 <= k < |points| - 1 ==> points[k] != (x1, y1)
  {
  }

  /** The whole loop invariant of `bresenham` at a point (x, y) with error `err`. */
  ghost predicate WalkInvariant(x0: int, y0: int, dx: int, dy: int, sx: int, sy: int, e0: int,
                                x: int, y: int, err: int, px: int, py: int, points: seq<(int, int)>) {
    WalkError(dx, dy, e0, err, px, py)
    && x == Toward(x0, sx, px) && y == Toward(y0, sy, py)
    && Walked(points, dx > dy, x0, sx, y0, sy, px, py)
  }

  /** One iteration of the loop body, as `bresenham` writes it, takes a state
      satisfying the invariant to one satisfying it, and makes progress: `e2` is the
      error on entry and the primed values are those after the two updates. */
  lemma WalkStep(x0: int, y0: int, x1: int, y1: int, dx: int, dy: int, sx: int, sy: int, e0: int,
                 x: int, y: int, e2: int, px: int, py: int, points: seq<(int, int)>,
                 x': int, y': int, err': int, px': int, py': int)
    requires WalkInvariant(x0, y0, dx, dy, sx, sy, e0, x, y, e2, px, py, points)
    requires x1 == Toward(x0, sx, dx) && y1 == Toward(y0, sy, dy)
    requires (sx == 1 || sx == -1) && (sy == 1 || sy == -1)
    requires x != x1 || y != y1
    requires x' == (if e2 > -dx then x + sx else x) && px' == (if e2 > -dx then px + 1 else px)
    requires y' == (if e2 < dy then y + sy else y) && py' == (if e2 < dy then py + 1 else py)
    requires err' == e2 - (if e2 > -dx then dy else 0) + (if e2 < dy then dx else 0)
    ensures WalkInvariant(x0, y0, dx, dy, sx, sy, e0, x', y', err', px', py', points + [(x', y')])
    ensures 0 <= (dx - px') + (dy - py') < (dx - px) + (dy - py)
  {
    WalkErrorStep(dx, dy, e0, e2, px, py);
    ExtendWalk(points, dx > dy, x0, sx, y0, sy, px, py, e2 > -dx, e2 < dy);
  }

  /** The loop invariant holds on entry, with the single start pixel. */
  lemma WalkStart(x0: int, y0: int, dx: int, dy: int, sx: int, sy: int, e0: int)
    requires dx >= 0 && dy >= 0 && e0 == Half(if dx > dy then dx else -dy)
    ensures WalkInvariant(x0, y0, dx, dy, sx, sy, e0, x0, y0, e0, 0, 0, [(x0, y0)])
  {
  }

  /** When the loop exits at the end point, the pixel list has the promised shape. */
  lemma WalkDone(x0: int, y0: int, x1: int, y1: int, dx: int, dy: int, sx: int, sy: int, e0: int,
                 err: int, px: int, py: int, points: seq<(int, int)>)
    requires WalkInvariant(x0, y0, dx, dy, sx, sy, e0, x1, y1, err, px, py, points)
    requires x1 == Toward(x0, sx, dx) && y1 == Toward(y0, sy, dy)
    requires (sx == 1 || sx == -1) && (sy == 1 || sy == -1)
    ensures |points| == Max(dx, dy) + 1
    ensures points[0] == (x0, y0) && points[|points| - 1] == (x1, y1)
    ensures forall k :: 0 <= k < |points| - 1 ==> points[k] != (x1, y1)
    ensures Stepwise(points, sx, sy) && MajorAxis(points, dx > dy, x0, sx, y0, sy)
  {
    WalkErrorEnd(dx, dy, e0, err, px, py);
    EndNotEarlier(points, dx > dy, x0, sx, y0, sy, x1, y1);
  }

  /** `bresenham`, returning the pixels it sets in the order `oledSetPixel` is called.
      The first pixel is the start point, the walk stops right after the end point,
      the end point is reached nowhere earlier, every step moves x by 0 or `sx` and y by
      0 or `sy`, the coordinate with the larger extent moves on every step, and there
      are max(|dx|, |dy|) steps. */
  method Bresenham(x0: int, y0: int, x1: int, y1: int) returns (points: seq<(int, int)>)
    ensures |points| == Max(IntAbs(x1 - x0), IntAbs(y1 - y0)) + 1
    ensures points[0] == (x0, y0) && points[|points| - 1] == (x1, y1)
    ensures forall k :: 0 <= k < |points| - 1 ==> points[k] != (x1, y1)
    ensures Stepwise(points, if x0 < x1 then 1 else -1, if y0 < y1 then 1 else -1)
    ensures MajorAxis(points, IntAbs(x1 - x0) > IntAbs(y1 - y0), x0, if x0 < x1 then 1 else -1,
                      y0, if y0 < y1 then 1 else -1)
  {
    var dx, sx := IntAbs(x1 - x0), if x0 < x1 then 1 else -1;
    var dy, sy := IntAbs(y1 - y0), if y0 < y1 then 1 else -1;
    var err := Half(if dx > dy then dx else -dy);
    ghost var e0 := err;
    var x, y := x0, y0;
    ghost var px, py := 0, 0;
    points := [(x, y)];
    WalkStart(x0, y0, dx, dy, sx, sy, e0);
    while x != x1 || y != y1
      invariant WalkInvariant(x0, y0, dx, dy, sx, sy, e0, x, y, err, px, py, points)
      decreases (dx - px) + (dy - py)
    {
      ghost var x_, y_, px_, py_, points_ := x, y, px, py, points;
      var e2 := err;
      if e2 > -dx {
        err := err - dy;
        x := x + sx;
        px := px + 1;
      }
      if e2 < dy {
        err := err + dx;
        y := y + sy;
        py := py + 1;
      }
      WalkStep(x0, y0, x1, y1, dx, dy, sx, sy, e0, x_, y_, e2, px_, py_, points_, x, y, err, px, py);
      points := points + [(x, y)];
    }
    WalkDone(x0, y0, x1, y1, dx, dy, sx, sy, e0, err, px, py, points);
  }
}
