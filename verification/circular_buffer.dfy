/** The circular averaging buffer: a fixed ring of `BUFFER_SIZE` samples and a
    32-bit write counter. A write goes to slot `writeIndex % BUFFER_SIZE`; the
    average is taken over every slot, written or not.

    Samples are `real` (the firmware uses `float`). Each operation is one atomic
    step: the firmware brackets `Write` and `Average` with interrupt masking.
 */
module CircularBuffer {
  import opened Types

  const BUFFER_SIZE: nat := 10

  datatype Buffer = Buffer(writeIndex: U32, values: seq<real>) {

    /** The fixed-size array `values[BUFFER_SIZE]`. */
    predicate Valid() {
      |values| == BUFFER_SIZE
    }

    /** The slot the next write goes to. */
    function Slot(): nat {
      writeIndex % BUFFER_SIZE
    }
  }

  /** Sum of a sequence, accumulated from the front like the firmware's loop. */
  function Sum(s: seq<real>): real {
    if |s| == 0 then 0.0 else Sum(s[..|s| - 1]) + s[|s| - 1]
  }

  /** A sequence of `n` zero samples. */
  function Zeros(n: nat): (z: seq<real>)
    ensures |z| == n
    ensures forall i :: 0 <= i < n ==> z[i] == 0.0
  {
    seq(n, _ => 0.0)
  }

  /** `buffer_init`: counter reset and every slot zeroed. */
  function Init(): (b: Buffer)
    ensures b.Valid()
    ensures b.writeIndex == 0
    ensures forall i :: 0 <= i < BUFFER_SIZE ==> b.values[i] == 0.0
  {
    Buffer(0, Zeros(BUFFER_SIZE))
  }

  /** `buffer_write`: store `v` in the current slot and advance the 32-bit
      counter, which wraps from 2^32 - 1 to 0. */
  function Write(b: Buffer, v: real): (b': Buffer)
    requires b.Valid()
    ensures b'.Valid()
    ensures b'.values[b.Slot()] == v
    ensures forall i :: 0 <= i < BUFFER_SIZE && i != b.Slot() ==> b'.values[i] == b.values[i]
    ensures b.writeIndex < UINT32_LIMIT - 1 ==> b'.writeIndex == b.writeIndex + 1
    ensures b.writeIndex == UINT32_LIMIT - 1 ==> b'.writeIndex == 0
  {
    Buffer((b.writeIndex + 1) % UINT32_LIMIT, b.values[b.Slot() := v])
  }

  /** `buffer_average`: the mean over all `BUFFER_SIZE` slots, never-written
      zero slots included. The buffer itself is a value and is not changed. */
  function Average(b: Buffer): (mean: real)
    requires b.Valid()
    ensures mean * BUFFER_SIZE as real == Sum(b.values)
  {
    Sum(b.values) / BUFFER_SIZE as real
  }

  /** The buffer after writing `ws` in order, starting from `b`. */
  function Writes(b: Buffer, ws: seq<real>): (b': Buffer)
    requires b.Valid()
    ensures b'.Valid()
  {
    if |ws| == 0 then b else Write(Writes(b, ws[..|ws| - 1]), ws[|ws| - 1])
  }

  // ---------------------------------------------------------------------------
  // Reference description: what a ring of BUFFER_SIZE slots should hold
  // ---------------------------------------------------------------------------

  /** Position, within `n` writes, of the most recent write to slot `i`
      (meaningful when `i < n`): the last `k < n` with `k % BUFFER_SIZE == i`. */
  function LastWriteTo(n: nat, i: nat): int {
    n - 1 - (n - 1 - i) % BUFFER_SIZE
  }

  /** What slot `i` should hold after the writes `ws`: the latest value
      written to it, or zero if it was never written. */
  function LatestIn(ws: seq<real>, i: nat): real
    requires i < BUFFER_SIZE
  {
    if i < |ws| then ws[LastWriteTo(|ws|, i)] else 0.0
  }

  /** After the writes `ws`, each slot holds the latest value written to it and
      never-written slots still hold zero. */
  ghost predicate HoldsLatest(values: seq<real>, ws: seq<real>) {
    && |values| == BUFFER_SIZE
    && forall i :: 0 <= i < BUFFER_SIZE ==> values[i] == LatestIn(ws, i)
  }

  lemma LastWriteToStep(n: nat, i: nat)
    requires 0 <= i < BUFFER_SIZE
    requires 1 <= n
    requires i != (n - 1) % BUFFER_SIZE
    requires i < n - 1
    ensures LastWriteTo(n, i) == LastWriteTo(n - 1, i)
    ensures 0 <= LastWriteTo(n, i) < n - 1
  {
    var d := n - 1 - i;
    assert d % BUFFER_SIZE != 0;
    assert (d - 1) % BUFFER_SIZE == d % BUFFER_SIZE - 1;
  }

  lemma LastWriteToSelf(n: nat)
    requires 1 <= n
    ensures LastWriteTo(n, (n - 1) % BUFFER_SIZE) == n - 1
  {
    var i := (n - 1) % BUFFER_SIZE;
    assert n - 1 - i == BUFFER_SIZE * ((n - 1) / BUFFER_SIZE);
  }

  /** One write keeps `HoldsLatest` when it goes to slot `n % BUFFER_SIZE`,
      where `n` counts the writes so far. */
  lemma {:induction false} WriteKeepsLatest(b: Buffer, ws: seq<real>, v: real)
    requires b.Valid()
    requires HoldsLatest(b.values, ws)
    requires b.Slot() == |ws| % BUFFER_SIZE
    ensures HoldsLatest(Write(b, v).values, ws + [v])
  {
    var b' := Write(b, v);
    var ws' := ws + [v];
    var n := |ws'|;
    forall i | 0 <= i < BUFFER_SIZE
      ensures b'.values[i] == LatestIn(ws', i)
    {
      if i == b.Slot() {
        LastWriteToSelf(n);
      } else if i < n - 1 {
        LastWriteToStep(n, i);
      } else {
        assert i >= n;
      }
    }
  }

  /** Writes from `buffer_init`, as long as the counter has not wrapped: the
      counter equals the number of writes and each slot holds its latest value. */
  lemma {:induction false} WritesFromInit(ws: seq<real>)
    requires |ws| <= UINT32_LIMIT
    ensures Writes(Init(), ws).writeIndex == |ws| % UINT32_LIMIT
    ensures HoldsLatest(Writes(Init(), ws).values, ws)
  {
    if |ws| == 0 {
    } else {
      var pre := ws[..|ws| - 1];
      WritesFromInit(pre);
      var b := Writes(Init(), pre);
      assert b.writeIndex == |pre|;
      assert pre + [ws[|ws| - 1]] == ws;
      WriteKeepsLatest(b, pre, ws[|ws| - 1]);
    }
  }

  // ---------------------------------------------------------------------------
  // Sums
  // ---------------------------------------------------------------------------

  lemma {:induction false} SumAppend(a: seq<real>, b: seq<real>)
    ensures Sum(a + b) == Sum(a) + Sum(b)
  {
    if |b| == 0 {
      assert a + b == a;
    } else {
      assert (a + b)[..|a + b| - 1] == a + b[..|b| - 1];
      SumAppend(a, b[..|b| - 1]);
    }
  }

  lemma {:induction false} SumZeros(n: nat)
    ensures Sum(Zeros(n)) == 0.0
  {
    if n > 0 {
      assert Zeros(n)[..n - 1] == Zeros(n - 1);
      SumZeros(n - 1);
    }
  }

  /** If every element lies in [lo, hi] then the sum lies in [|s|·lo, |s|·hi]. */
  lemma {:induction false} SumWithin(s: seq<real>, lo: real, hi: real)
    requires forall i :: 0 <= i < |s| ==> lo <= s[i] <= hi
    ensures |s| as real * lo <= Sum(s) <= |s| as real * hi
  {
    if |s| > 0 {
      SumWithin(s[..|s| - 1], lo, hi);
    }
  }

  // ---------------------------------------------------------------------------
  // Properties of the average
  // ---------------------------------------------------------------------------

  /** The average of slots all within [lo, hi] lies within [lo, hi]. */
  lemma AverageWithinBounds(b: Buffer, lo: real, hi: real)
    requires b.Valid()
    requires forall i :: 0 <= i < BUFFER_SIZE ==> lo <= b.values[i] <= hi
    ensures lo <= Average(b) <= hi
  {
    SumWithin(b.values, lo, hi);
  }

  /** Warm-up: after `buffer_init` and at most `BUFFER_SIZE` writes, the slots
      are the writes followed by zeros, and the average divides their sum by
      `BUFFER_SIZE`, not by the number of writes. */
  lemma {:induction false} WarmUpAverage(ws: seq<real>)
    requires |ws| <= BUFFER_SIZE
    ensures Writes(Init(), ws).values == ws + Zeros(BUFFER_SIZE - |ws|)
    ensures Average(Writes(Init(), ws)) == Sum(ws) / BUFFER_SIZE as real
  {
    var b := Writes(Init(), ws);
    WritesFromInit(ws);
    forall i | 0 <= i < |ws|
      ensures b.values[i] == ws[i]
    {
      assert LastWriteTo(|ws|, i) == i;
      assert b.values[i] == LatestIn(ws, i);
    }
    forall i | |ws| <= i < BUFFER_SIZE
      ensures b.values[i] == 0.0
    {
      assert b.values[i] == LatestIn(ws, i);
    }
    assert b.values == ws + Zeros(BUFFER_SIZE - |ws|);
    SumAppend(ws, Zeros(BUFFER_SIZE - |ws|));
    SumZeros(BUFFER_SIZE - |ws|);
  }

  /** Slots that hold the latest value of at least `BUFFER_SIZE` writes are a
      rotation of the last `BUFFER_SIZE` writes. */
  lemma LatestIsRotation(values: seq<real>, ws: seq<real>)
    requires |ws| >= BUFFER_SIZE
    requires HoldsLatest(values, ws)
    ensures var last := ws[|ws| - BUFFER_SIZE..];
            var r := |ws| % BUFFER_SIZE;
            values == last[BUFFER_SIZE - r..] + last[..BUFFER_SIZE - r]
  {
    var n := |ws|;
    var last := ws[n - BUFFER_SIZE..];
    var r := n % BUFFER_SIZE;
    var rot := last[BUFFER_SIZE - r..] + last[..BUFFER_SIZE - r];
    forall i | 0 <= i < BUFFER_SIZE
      ensures values[i] == rot[i]
    {
      assert values[i] == LatestIn(ws, i);
      if i < r {
        assert (n - 1 - i) % BUFFER_SIZE == r - 1 - i;
        assert rot[i] == last[BUFFER_SIZE - r + i];
      } else {
        assert (n - 1 - i) % BUFFER_SIZE == r - 1 - i + BUFFER_SIZE;
        assert rot[i] == last[i - r];
      }
    }
  }

  /** Steady state: once at least `BUFFER_SIZE` values have been written (and
      the counter has not wrapped), the slots hold exactly the last
      `BUFFER_SIZE` values and the average is their mean. */
  lemma SteadyStateAverage(ws: seq<real>)
    requires BUFFER_SIZE <= |ws| <= UINT32_LIMIT
    ensures multiset(Writes(Init(), ws).values) == multiset(ws[|ws| - BUFFER_SIZE..])
    ensures Average(Writes(Init(), ws)) == Sum(ws[|ws| - BUFFER_SIZE..]) / BUFFER_SIZE as real
  {
    WritesFromInit(ws);
    LatestMean(Writes(Init(), ws).values, ws);
  }

  lemma LatestMean(values: seq<real>, ws: seq<real>)
    requires |ws| >= BUFFER_SIZE
    requires HoldsLatest(values, ws)
    ensures multiset(values) == multiset(ws[|ws| - BUFFER_SIZE..])
    ensures Sum(values) == Sum(ws[|ws| - BUFFER_SIZE..])
  {
    var last := ws[|ws| - BUFFER_SIZE..];
    var k := BUFFER_SIZE - |ws| % BUFFER_SIZE;
    LatestIsRotation(values, ws);
    assert last == last[..k] + last[k..];
    SumAppend(last[k..], last[..k]);
    SumAppend(last[..k], last[k..]);
  }

  // ---------------------------------------------------------------------------
  // The 32-bit counter wrap
  // ---------------------------------------------------------------------------

  /** Consecutive writes move to the next slot of the ring exactly when the
      counter does not wrap: 2^32 is not a multiple of `BUFFER_SIZE`. */
  lemma SlotAdvancesUnlessWrap(b: Buffer, v: real)
    requires b.Valid()
    ensures Write(b, v).Slot() == (b.Slot() + 1) % BUFFER_SIZE <==> b.writeIndex != UINT32_LIMIT - 1
  {
    if b.writeIndex == UINT32_LIMIT - 1 {
      assert b.Slot() == 5;
      assert Write(b, v).Slot() == 0;
    }
  }

  /** The sequence of `n` writes whose only non-zero value, 1.0, is at `pos`. */
  function Spike(n: nat, pos: nat): (ws: seq<real>)
    ensures |ws| == n
    ensures forall i :: 0 <= i < n ==> ws[i] == (if i == pos then 1.0 else 0.0)
  {
    seq(n, i => if i == pos then 1.0 else 0.0)
  }

  /** As written, "overwrite the oldest slot" fails once the counter wraps:
      after 2^32 + 1 writes from `buffer_init` the buffer still holds a value
      written eleven writes ago, which is not among the last `BUFFER_SIZE`. */
  lemma WrapKeepsStaleSample()
    ensures var ws := Spike(UINT32_LIMIT + 1, UINT32_LIMIT - 10);
            && 1.0 in multiset(Writes(Init(), ws).values)
            && 1.0 !in multiset(ws[|ws| - BUFFER_SIZE..])
  {
    var ws := Spike(UINT32_LIMIT + 1, UINT32_LIMIT - 10);
    var pre := ws[..UINT32_LIMIT];
    WritesFromInit(pre);
    var b := Writes(Init(), pre);
    assert b.writeIndex == 0;
    assert LastWriteTo(UINT32_LIMIT, 6) == UINT32_LIMIT - 10;
    assert b.values[6] == LatestIn(pre, 6) == 1.0;
    assert pre + [ws[UINT32_LIMIT]] == ws;
    var b' := Writes(Init(), ws);
    assert b' == Write(b, ws[UINT32_LIMIT]);
    assert b'.values[6] == 1.0;
    var last := ws[|ws| - BUFFER_SIZE..];
    assert forall i :: 0 <= i < |last| ==> last[i] == 0.0;
  }

  // ---------------------------------------------------------------------------
  // Corrected counter: keep the cursor inside the ring
  // ---------------------------------------------------------------------------

  /** `buffer_write` with the counter kept modulo `BUFFER_SIZE`, so it never
      reaches the 32-bit wrap and always advances to the next slot. */
  function WriteInRing(b: Buffer, v: real): (b': Buffer)
    requires b.Valid()
    ensures b'.Valid()
    ensures b'.values[b.Slot()] == v
    ensures forall i :: 0 <= i < BUFFER_SIZE && i != b.Slot() ==> b'.values[i] == b.values[i]
    ensures b'.writeIndex < BUFFER_SIZE
    ensures b'.Slot() == (b.Slot() + 1) % BUFFER_SIZE
  {
    Buffer((b.writeIndex % BUFFER_SIZE + 1) % BUFFER_SIZE, b.values[b.Slot() := v])
  }

  function WritesInRing(b: Buffer, ws: seq<real>): (b': Buffer)
    requires b.Valid()
    ensures b'.Valid()
  {
    if |ws| == 0 then b else WriteInRing(WritesInRing(b, ws[..|ws| - 1]), ws[|ws| - 1])
  }

  lemma {:induction false} WritesInRingFromInit(ws: seq<real>)
    ensures WritesInRing(Init(), ws).writeIndex == |ws| % BUFFER_SIZE
    ensures HoldsLatest(WritesInRing(Init(), ws).values, ws)
  {
    if |ws| > 0 {
      var pre := ws[..|ws| - 1];
      WritesInRingFromInit(pre);
      var b := WritesInRing(Init(), pre);
      assert b.writeIndex == |pre| % BUFFER_SIZE;
      assert b.Slot() == |pre| % BUFFER_SIZE;
      var b' := WriteInRing(b, ws[|ws| - 1]);
      assert b' == WritesInRing(Init(), ws);
      assert b'.writeIndex == (b.writeIndex + 1) % BUFFER_SIZE;
      assert (|pre| % BUFFER_SIZE + 1) % BUFFER_SIZE == |ws| % BUFFER_SIZE;
      assert pre + [ws[|ws| - 1]] == ws;
      WriteKeepsLatest(b, pre, ws[|ws| - 1]);
    }
  }

  /** With the corrected counter the steady state holds for any number of
      writes: the slots are the last `BUFFER_SIZE` values written. */
  lemma SteadyStateInRing(ws: seq<real>)
    requires BUFFER_SIZE <= |ws|
    ensures multiset(WritesInRing(Init(), ws).values) == multiset(ws[|ws| - BUFFER_SIZE..])
    ensures Average(WritesInRing(Init(), ws)) == Sum(ws[|ws| - BUFFER_SIZE..]) / BUFFER_SIZE as real
  {
    WritesInRingFromInit(ws);
    LatestMean(WritesInRing(Init(), ws).values, ws);
  }
}
