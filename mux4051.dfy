/** `set4051` of 4051.h: selects channel n of a 4051 analogue multiplexer by driving
    its three select pins. The model is the sequence of `gpio_put` calls it makes. */
module Mux4051 {

  const PIN_A: int := 20
  const PIN_B: int := 21
  const PIN_C: int := 22

  /** One `gpio_put(pin, level)` call. */
  datatype Put = Put(pin: int, level: int)

  /** The three calls of one branch: A, then B, then C. */
  function Drive(a: int, b: int, c: int): seq<Put> {
    [Put(PIN_A, a), Put(PIN_B, b), Put(PIN_C, c)]
  }

  /** `set4051(n)`: the if/else chain over 0..7; it has no final else, so any other n
      writes nothing. */
  function Set4051(n: int): (r: seq<Put>)
    ensures r != [] <==> 0 <= n < 8
    ensures r != [] ==> |r| == 3 && r[0].pin == PIN_A && r[1].pin == PIN_B && r[2].pin == PIN_C
  {
    if n == 0 then Drive(0, 0, 0)
    else if n == 1 then Drive(0, 0, 1)
    else if n == 2 then Drive(0, 1, 0)
    else if n == 3 then Drive(0, 1, 1)
    else if n == 4 then Drive(1, 0, 0)
    else if n == 5 then Drive(1, 0, 1)
    else if n == 6 then Drive(1, 1, 0)
    else if n == 7 then Drive(1, 1, 1)
    else []
  }

  /** The channel a sequence of three writes selects: A is the high bit, C the low. */
  function Channel(puts: seq<Put>): int
    requires |puts| == 3
  {
    4 * puts[0].level + 2 * puts[1].level + puts[2].level
  }

  /** For a channel 0..7 the pins get its three bits: A bit 2, B bit 1, C bit 0; each
      of A, B and C is written exactly once, in that order, with 0 or 1. */
  lemma Set4051Bits(n: int)
    requires 0 <= n < 8
    ensures Set4051(n) == Drive(n / 4, (n / 2) % 2, n % 2)
    ensures var puts := Set4051(n);
            |puts| == 3 && puts[0].pin == PIN_A && puts[1].pin == PIN_B && puts[2].pin == PIN_C
            && forall k :: 0 <= k < 3 ==> 0 <= puts[k].level <= 1
  {
    if n == 0 {
    } else if n == 1 {
    } else if n == 2 {
    } else if n == 3 {
    } else if n == 4 {
    } else if n == 5 {
    } else if n == 6 {
    } else {
      assert n == 7;
    }
  }

  /** Reading the pins back gives the channel: n == 4A + 2B + C. */
  lemma ChannelRoundTrip(n: int)
    requires 0 <= n < 8
    ensures |Set4051(n)| == 3 && Channel(Set4051(n)) == n
  {
    Set4051Bits(n);
    assert n == 4 * (n / 4) + 2 * ((n / 2) % 2) + n % 2;
  }

  /** Every pin triple is reached: the channel 4a + 2b + c drives exactly (a, b, c). */
  lemma EveryTripleSelected(a: int, b: int, c: int)
    requires 0 <= a <= 1 && 0 <= b <= 1 && 0 <= c <= 1
    ensures Set4051(4 * a + 2 * b + c) == Drive(a, b, c)
  {
    var n := 4 * a + 2 * b + c;
    Set4051Bits(n);
    assert n / 4 == a && (n / 2) % 2 == b && n % 2 == c;
  }

  /** Distinct channels drive distinct pin triples. */
  lemma Set4051Injective(n: int, n': int)
    requires 0 <= n < 8 && 0 <= n' < 8 && Set4051(n) == Set4051(n')
    ensures n == n'
  {
    ChannelRoundTrip(n);
    ChannelRoundTrip(n');
  }

  /** Outside 0..7 no pin is written. */
  lemma OutOfRangeWritesNothing(n: int)
    requires n < 0 || n >= 8
    ensures Set4051(n) == []
  {
  }
}
