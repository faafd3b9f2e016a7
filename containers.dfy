/** The telemetry ring ("wavering") of cell/containers.h: a 128-slot circular buffer
    whose write cursor `i` and read cursor `o` are each pre-incremented and wrapped on
    their own. There is no fullness and no emptiness check: a writer overwrites unread
    slots and a reader returns whatever a slot holds. */
module Containers {

  const RING_LENGTH: int := 128
  /** Cursors are C `unsigned` (32 bits). */
  const UINT_RANGE: int := 0x1_0000_0000

  /** Abstract state of one ring: the slot contents and both cursors. */
  datatype Ring = Ring(data: seq<int>, i: int, o: int)

  predicate IsCursor(c: int) { 0 <= c < UINT_RANGE }

  predicate ValidRing(r: Ring) {
    |r.data| == RING_LENGTH && IsCursor(r.i) && IsCursor(r.o)
  }

  /** Pre-increment of a cursor (32-bit unsigned) followed by the wrap test
      `if (c >= WAVERING_LENGTH) c = 0`. */
  function Next(c: int): (n: int)
    requires IsCursor(c)
    ensures 0 <= n < RING_LENGTH
    ensures c < RING_LENGTH ==> n == (c + 1) % RING_LENGTH
  {
    var inc := (c + 1) % UINT_RANGE;
    if inc >= RING_LENGTH then 0 else inc
  }

  /** `wavering_set`: advance `i`, then store the value at the new `i`. */
  function Put(r: Ring, v: int): (r': Ring)
    requires ValidRing(r)
    ensures ValidRing(r') && 0 <= r'.i < RING_LENGTH
    ensures r.i < RING_LENGTH ==> r'.i == (r.i + 1) % RING_LENGTH
    ensures r'.o == r.o && r'.data[r'.i] == v
    ensures forall k :: 0 <= k < RING_LENGTH && k != r'.i ==> r'.data[k] == r.data[k]
  {
    var n := Next(r.i);
    Ring(r.data[n := v], n, r.o)
  }

  /** `wavering_get`: advance `o`, then return the slot at the new `o`, whether or not
      anything was written there since the last read. */
  function Take(r: Ring): (res: (Ring, int))
    requires ValidRing(r)
    ensures ValidRing(res.0) && 0 <= res.0.o < RING_LENGTH
    ensures res.0.data == r.data && res.0.i == r.i
    ensures res.1 == r.data[res.0.o]
  {
    var n := Next(r.o);
    (Ring(r.data, r.i, n), r.data[n])
  }

  /** The ring after writing `vs` in order. */
  function PutAll(r: Ring, vs: seq<int>): (r': Ring)
    requires ValidRing(r)
    ensures ValidRing(r')
    decreases |vs|
  {
    if vs == [] then r else Put(PutAll(r, vs[..|vs| - 1]), vs[|vs| - 1])
  }

  /** Writing `vs` then `v` is writing `vs + [v]`. */
  lemma PutAllSnoc(r: Ring, vs: seq<int>, v: int)
    requires ValidRing(r)
    ensures PutAll(r, vs + [v]) == Put(PutAll(r, vs), v)
  {
    assert (vs + [v])[..|vs|] == vs;
  }

  /** The ring and the values read after `k` reads in a row. */
  function TakeAll(r: Ring, k: nat): (res: (Ring, seq<int>))
    requires ValidRing(r)
    ensures ValidRing(res.0) && |res.1| == k
    decreases k
  {
    if k == 0 then (r, [])
    else
      var (r1, vs) := TakeAll(r, k - 1);
      var (r2, v) := Take(r1);
      (r2, vs + [v])
  }

  /** Two slots `d` apart, 0 < d < 128, are distinct. */
  lemma SlotsDistinct(a: int, d: int)
    requires 0 <= a && 0 < d < RING_LENGTH
    ensures (a + d) % RING_LENGTH != a % RING_LENGTH
  {
  }

  /** After writes from a cursor below 128: the write cursor moved by |vs| (mod 128),
      the read cursor did not move, and each of the last 128 values sits in the slot
      one past the cursor position it was written from. */
  lemma {:induction false} PutAllSlots(r: Ring, vs: seq<int>)
    requires ValidRing(r) && r.i < RING_LENGTH
    ensures PutAll(r, vs).i == (r.i + |vs|) % RING_LENGTH
    ensures PutAll(r, vs).o == r.o
    ensures forall j :: 0 <= j < |vs| && |vs| - j <= RING_LENGTH ==>
              PutAll(r, vs).data[(r.i + j + 1) % RING_LENGTH] == vs[j]
    decreases |vs|
  {
    if vs != [] {
      var pre, v := vs[..|vs| - 1], vs[|vs| - 1];
      PutAllSlots(r, pre);
      var r1 := PutAll(r, pre);
      var r2 := Put(r1, v);
      assert PutAll(r, vs) == r2;
      CursorSucc(r.i + |pre|);
      var n := (r.i + |vs|) % RING_LENGTH;
      assert r2.i == n && r2.data == r1.data[n := v];
      forall j | 0 <= j < |vs| && |vs| - j <= RING_LENGTH
        ensures r2.data[(r.i + j + 1) % RING_LENGTH] == vs[j]
      {
        if j < |pre| {
          SlotsDistinct(r.i + j + 1, |pre| - j);
          assert pre[j] == vs[j];
        }
      }
    }
  }

  /** After k reads: the read cursor moved by k (mod 128), nothing else changed, and
      the j-th value read is the slot one past the (j-th moved) read cursor. */
  lemma {:induction false} TakeAllSlots(r: Ring, k: nat)
    requires ValidRing(r) && r.o < RING_LENGTH
    ensures TakeAll(r, k).0 == Ring(r.data, r.i, (r.o + k) % RING_LENGTH)
    ensures forall j :: 0 <= j < k ==>
              TakeAll(r, k).1[j] == r.data[(r.o + j + 1) % RING_LENGTH]
    decreases k
  {
    if k > 0 {
      TakeAllSlots(r, k - 1);
      var (r1, vs) := TakeAll(r, k - 1);
      var (r2, v) := Take(r1);
      assert TakeAll(r, k) == (r2, vs + [v]);
      CursorSucc(r.o + k - 1);
      assert r2 == Ring(r.data, r.i, (r.o + k) % RING_LENGTH);
      assert v == r.data[(r.o + k) % RING_LENGTH];
      forall j | 0 <= j < k
        ensures (vs + [v])[j] == r.data[(r.o + j + 1) % RING_LENGTH]
      {
        if j < k - 1 {
          assert (vs + [v])[j] == vs[j];
        }
      }
    }
  }

  /** One step of a cursor below 128 is one step modulo 128. */
  lemma CursorSucc(a: nat)
    ensures Next(a % RING_LENGTH) == (a + 1) % RING_LENGTH
  {
  }

  /** The FIFO property: starting with both cursors at the same place (as
      `wavering_init` leaves them), K <= 128 writes followed by K reads return the K
      values in the order they were written. */
  lemma {:induction false} FifoOrder(r: Ring, vs: seq<int>)
    requires ValidRing(r) && r.i == r.o < RING_LENGTH
    requires |vs| <= RING_LENGTH
    ensures TakeAll(PutAll(r, vs), |vs|).1 == vs
  {
    PutAllSlots(r, vs);
    var w := PutAll(r, vs);
    assert w.o == r.i;
    TakeAllSlots(w, |vs|);
    var out := TakeAll(w, |vs|).1;
    assert |out| == |vs|;
    forall j | 0 <= j < |vs| ensures out[j] == vs[j] {
      var slot := (r.i + j + 1) % RING_LENGTH;
      assert out[j] == w.data[slot];
      assert w.data[slot] == vs[j];
    }
  }

  /** The first value written after `wavering_init` lands in slot 1, not slot 0. */
  lemma FirstWriteSlot(d: seq<int>, v: int)
    requires |d| == RING_LENGTH
    ensures PutAll(Ring(d, 0, 0), [v]).data[1] == v
    ensures PutAll(Ring(d, 0, 0), [v]).data[0] == d[0]
  {
    assert PutAll(Ring(d, 0, 0), [v]) == Put(Ring(d, 0, 0), v);
  }

  /** No backpressure: the 129th write after `wavering_init` overwrites the slot of the
      first value, so the first read returns the 129th value instead of the first. */
  lemma OverwriteAfterCapacity(d: seq<int>, vs: seq<int>)
    requires |d| == RING_LENGTH && |vs| == RING_LENGTH + 1
    ensures PutAll(Ring(d, 0, 0), vs).data[1] == vs[RING_LENGTH]
    ensures Take(PutAll(Ring(d, 0, 0), vs)).1 == vs[RING_LENGTH]
  {
    PutAllSlots(Ring(d, 0, 0), vs);
  }

  /** The ring of grib.c (`static wavering cbuffer`), updated in place. */
  class Wavering {
    const data: array<int>
    var i: int
    var o: int

    ghost predicate Valid()
      reads this
    {
      data.Length == RING_LENGTH && IsCursor(i) && IsCursor(o)
    }

    /** The abstract value of the ring. */
    function State(): (r: Ring)
      reads this, data
      requires Valid()
      ensures ValidRing(r)
    {
      Ring(data[..], i, o)
    }

    /** `wavering_init`: both cursors 0; slot contents are left unspecified. */
    constructor ()
      ensures Valid() && fresh(data)
      ensures i == 0 && o == 0
    {
      data := new int[RING_LENGTH];
      i, o := 0, 0;
    }

    /** `wavering_set` */
    method Set(value: int)
      requires Valid()
      modifies this, data
      ensures Valid() && State() == Put(old(State()), value)
    {
      i := Next(i);
      data[i] := value;
    }

    /** `wavering_get` */
    method Get() returns (v: int)
      requires Valid()
      modifies this
      ensures Valid() && (State(), v) == Take(old(State()))
    {
      o := Next(o);
      v := data[o];
    }
  }
}
