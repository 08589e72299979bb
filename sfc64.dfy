/**
  * Chris Doty-Humphrey's Small Fast Counting generator (sfc64), run as eight
  * independent lanes that are advanced in lock-step.
  *
  * `Output`, `Step` and `Iterate` define one lane on its own.  `VecOutput`,
  * `VecStep` and `VecIterate` define the four 8-lane vectors the C++ keeps,
  * with the same vector expressions; the `...LaneWise` lemmas show that
  * lane `j` of the vector definition is the lane definition applied to
  * lane `j` alone.  The class `Generator` holds the vectors and its methods
  * are proved to move them exactly as the vector definition says.
  */
module Sfc64 {
  import opened Lanes

  /** Lock-step updates per batch. */
  const STEPS_PER_BATCH: nat := 256
  /** Words written per batch (`SIZE` in `sfc64Large`). */
  const BATCH_SIZE: nat := 2048
  /** Steps discarded after seeding. */
  const WARMUP_STEPS: nat := 12

  /** The state of one lane. */
  datatype Lane = Lane(a: bv64, b: bv64, c: bv64, counter: bv64)

  /** `(c << 24) | (c >> 40)` is the 64-bit left rotation by 24. */
  function Rotl24(x: bv64): (r: bv64)
    ensures r == x.RotateLeft(24)
  {
    OrWord(ShlWord(x, 24), ShrWord(x, 40))
  }

  /** The word a step emits, computed from the state before the step. */
  function Output(l: Lane): bv64
  {
    AddWord(AddWord(l.a, l.b), l.counter)
  }

  /** One update of one lane. */
  function Step(l: Lane): Lane
  {
    Lane(XorWord(l.b, ShrWord(l.b, 11)),
         AddWord(l.c, ShlWord(l.c, 3)),
         AddWord(Rotl24(l.c), Output(l)),
         AddWord(l.counter, 1))
  }

  /** The lane after `n` steps. */
  function Iterate(l: Lane, n: nat): Lane
  {
    if n == 0 then l else Step(Iterate(l, n - 1))
  }

  /** A lane right after its seed is loaded: `a`, `b`, `c` all hold the seed. */
  function Seeded(seed: bv64, counter: bv64): Lane
  {
    Lane(seed, seed, seed, counter)
  }

  /** XOR of all eight lanes. */
  function XorFold(v: Vec8): bv64
  {
    v[0] ^ v[1] ^ v[2] ^ v[3] ^ v[4] ^ v[5] ^ v[6] ^ v[7]
  }

  /** `x` incremented `n` times, wrapping at 2^64: `x + n (mod 2^64)`. */
  function Inc(x: bv64, n: nat): bv64
  {
    if n == 0 then x else AddWord(Inc(x, n - 1), 1)
  }

  /** Incrementing `m` times and then `n` times is incrementing `m + n` times. */
  lemma {:induction false} IncAdd(x: bv64, m: nat, n: nat)
    ensures Inc(Inc(x, m), n) == Inc(x, m + n)
  {
    if n > 0 {
      IncAdd(x, m, n - 1);
    }
  }

  lemma Inc2(x: bv64)
    ensures Inc(x, 2) == AddWord(x, 2)
  {
    IncAdd(x, 1, 1);
  }

  lemma Inc4(x: bv64)
    ensures Inc(x, 4) == AddWord(x, 4)
  {
    IncAdd(x, 2, 2);
    Inc2(x);
    Inc2(AddWord(x, 2));
  }

  lemma Inc8(x: bv64)
    ensures Inc(x, 8) == AddWord(x, 8)
  {
    IncAdd(x, 4, 4);
    Inc4(x);
    Inc4(AddWord(x, 4));
  }

  lemma Inc16(x: bv64)
    ensures Inc(x, 16) == AddWord(x, 16)
  {
    IncAdd(x, 8, 8);
    Inc8(x);
    Inc8(AddWord(x, 8));
  }

  lemma Inc32(x: bv64)
    ensures Inc(x, 32) == AddWord(x, 32)
  {
    IncAdd(x, 16, 16);
    Inc16(x);
    Inc16(AddWord(x, 16));
  }

  lemma Inc64(x: bv64)
    ensures Inc(x, 64) == AddWord(x, 64)
  {
    IncAdd(x, 32, 32);
    Inc32(x);
    Inc32(AddWord(x, 32));
  }

  lemma Inc128(x: bv64)
    ensures Inc(x, 128) == AddWord(x, 128)
  {
    IncAdd(x, 64, 64);
    Inc64(x);
    Inc64(AddWord(x, 64));
  }

  /** A batch's worth of increments adds exactly 256 (mod 2^64). */
  lemma IncBatch(x: bv64)
    ensures Inc(x, STEPS_PER_BATCH) == AddWord(x, 256)
  {
    IncAdd(x, 128, 128);
    Inc128(x);
    Inc128(AddWord(x, 128));
  }

  /** The warm-up's increments add exactly 12 (mod 2^64). */
  lemma IncWarmup(x: bv64)
    ensures Inc(x, WARMUP_STEPS) == AddWord(x, 12)
  {
    IncAdd(x, 8, 4);
    Inc8(x);
    Inc4(AddWord(x, 8));
  }

  /** Each step increments the counter by exactly one, wrapping at 2^64. */
  lemma {:induction false} CounterAdvance(l: Lane, n: nat)
    ensures Iterate(l, n).counter == Inc(l.counter, n)
  {
    if n > 0 {
      CounterAdvance(l, n - 1);
    }
  }

  /**
    * The counter after seeding and `batches` full batches: it has been
    * incremented 12 + 256 * batches times since the seed was loaded.
    */
  lemma CounterAfterBatches(seed: bv64, counter: bv64, batches: nat)
    ensures Iterate(Seeded(seed, counter), WARMUP_STEPS + STEPS_PER_BATCH * batches).counter
         == Inc(AddWord(counter, 12), STEPS_PER_BATCH * batches)
  {
    CounterAdvance(Seeded(seed, counter), WARMUP_STEPS + STEPS_PER_BATCH * batches);
    IncAdd(counter, WARMUP_STEPS, STEPS_PER_BATCH * batches);
    IncWarmup(counter);
  }

  /** Inserting all eight lanes of `v`, in order, yields `v` whatever the vector held. */
  lemma EveryLaneInserted(x: Vec8, v: Vec8)
    ensures Insert(Insert(Insert(Insert(Insert(Insert(Insert(Insert(x,
              0, v[0]), 1, v[1]), 2, v[2]), 3, v[3]), 4, v[4]), 5, v[5]), 6, v[6]), 7, v[7]) == v
  {
  }

  /** The four state vectors of all eight lanes, as a value. */
  datatype Sfc = Sfc(a: Vec8, b: Vec8, c: Vec8, counter: Vec8)

  /** `r = a + b + counter`: the eight words one lock-step update emits. */
  function VecOutput(g: Sfc): Vec8
  {
    Add(Add(g.a, g.b), g.counter)
  }

  /** One lock-step update of all four vectors, each from the values before it. */
  function VecStep(g: Sfc): Sfc
  {
    Sfc(Xor(g.b, Shr(g.b, 11)),
        Add(g.c, Shl(g.c, 3)),
        Add(Or(Shl(g.c, 24), Shr(g.c, 40)), VecOutput(g)),
        Add(g.counter, Splat(1)))
  }

  /** The state after `n` lock-step updates. */
  function VecIterate(g: Sfc, n: nat): Sfc
  {
    if n == 0 then g else VecStep(VecIterate(g, n - 1))
  }

  /** `m` updates followed by `n` more are `m + n` updates. */
  lemma {:induction false} VecIterateAdd(g: Sfc, m: nat, n: nat)
    ensures VecIterate(VecIterate(g, m), n) == VecIterate(g, m + n)
  {
    if n > 0 {
      calc {
        VecIterate(g, m + n);
        VecStep(VecIterate(g, m + n - 1));
        { VecIterateAdd(g, m, n - 1); }
        VecStep(VecIterate(VecIterate(g, m), n - 1));
      }
    }
  }

  /** The outputs of the first `n` lock-step updates from `g`, in order. */
  function VecOutputs(g: Sfc, n: nat): (rows: seq<Vec8>)
    ensures |rows| == n
    ensures forall k {:trigger rows[k]} :: 0 <= k < n ==> rows[k] == VecOutput(VecIterate(g, k))
  {
    if n == 0 then [] else VecOutputs(g, n - 1) + [VecOutput(VecIterate(g, n - 1))]
  }

  /** The state right after `initSfc64` has loaded `seeds` into `a`, `b` and `c`. */
  function Loaded(seeds: Vec8, counter: Vec8): Sfc
  {
    Sfc(seeds, seeds, seeds, counter)
  }

  /** Lane `j` of the state. */
  function LaneOf(g: Sfc, j: nat): Lane
    requires j < LANES
  {
    Lane(g.a[j], g.b[j], g.c[j], g.counter[j])
  }

  /** Lane `j` of an update's output depends on lane `j` of the state alone. */
  lemma OutputLaneWise(g: Sfc, j: nat)
    requires j < LANES
    ensures VecOutput(g)[j] == Output(LaneOf(g, j))
  {
  }

  /** Lane `j` of the updated state is one step of lane `j` alone. */
  lemma StepLaneWise(g: Sfc, j: nat)
    requires j < LANES
    ensures LaneOf(VecStep(g), j) == Step(LaneOf(g, j))
  {
    OutputLaneWise(g, j);
  }

  /** After `n` lock-step updates, lane `j` is where `n` steps of that lane alone take it. */
  lemma {:induction false} IterateLaneWise(g: Sfc, n: nat, j: nat)
    requires j < LANES
    ensures LaneOf(VecIterate(g, n), j) == Iterate(LaneOf(g, j), n)
  {
    if n > 0 {
      IterateLaneWise(g, n - 1, j);
      StepLaneWise(VecIterate(g, n - 1), j);
    }
  }

  /** Loading seeds gives every lane the state `Seeded` describes. */
  lemma LoadedLaneWise(seeds: Vec8, counter: Vec8, n: nat, j: nat)
    requires j < LANES
    ensures LaneOf(VecIterate(Loaded(seeds, counter), n), j) == Iterate(Seeded(seeds[j], counter[j]), n)
  {
    IterateLaneWise(Loaded(seeds, counter), n, j);
  }

  /** `n` lock-step updates add `n` to every counter lane, wrapping at 2^64. */
  lemma CounterAfter(g: Sfc, n: nat, j: nat)
    requires j < LANES
    ensures VecIterate(g, n).counter[j] == Inc(g.counter[j], n)
  {
    IterateLaneWise(g, n, j);
    CounterAdvance(LaneOf(g, j), n);
  }

  /** A batch adds exactly 256 to every counter lane, wrapping at 2^64. */
  lemma BatchCounter(g: Sfc)
    ensures VecIterate(g, STEPS_PER_BATCH).counter == Add(g.counter, Splat(256))
  {
    forall j | 0 <= j < LANES
      ensures VecIterate(g, STEPS_PER_BATCH).counter[j] == AddWord(g.counter[j], 256)
    {
      CounterAfter(g, STEPS_PER_BATCH, j);
      IncBatch(g.counter[j]);
    }
  }

  /** The warm-up adds exactly 12 to every counter lane, wrapping at 2^64. */
  lemma WarmUpCounter(g: Sfc)
    ensures VecIterate(g, WARMUP_STEPS).counter == Add(g.counter, Splat(12))
  {
    forall j | 0 <= j < LANES
      ensures VecIterate(g, WARMUP_STEPS).counter[j] == AddWord(g.counter[j], 12)
    {
      CounterAfter(g, WARMUP_STEPS, j);
      IncWarmup(g.counter[j]);
    }
  }

  /** A buffer holding the first `n` outputs step-major, word by word. */
  lemma LaidOutputs(o: seq<bv64>, g: Sfc, n: nat)
    requires Laid(o, VecOutputs(g, n))
    ensures forall k, j :: 0 <= k < n && 0 <= j < LANES ==> o[8 * k + j] == VecOutput(VecIterate(g, k))[j]
  {
    forall k, j | 0 <= k < n && 0 <= j < LANES
      ensures o[8 * k + j] == VecOutput(VecIterate(g, k))[j]
    {
      assert o[8 * k + j] == VecOutputs(g, n)[k][j];
    }
  }

  /** Word `j` of the `k`-th update's output is lane `j`'s own output after `k` steps. */
  lemma OutputAfterLaneWise(g: Sfc, k: nat, j: nat)
    requires j < LANES
    ensures VecOutput(VecIterate(g, k))[j] == Output(Iterate(LaneOf(g, j), k))
  {
    OutputLaneWise(VecIterate(g, k), j);
    IterateLaneWise(g, k, j);
  }

  /**
    * The eight lanes of the generator.  The C++ keeps them as four
    * process-wide vectors; here they are the fields of one object.
    */
  class Generator {
    var a: Vec8
    var b: Vec8
    var c: Vec8
    var counter: Vec8

    /** The four vectors as a value. */
    function State(): Sfc
      reads this
    {
      Sfc(a, b, c, counter)
    }

    /** Static storage starts zeroed; `counter` is initialised to 1 in every lane. */
    constructor ()
      ensures State() == Sfc(Splat(0), Splat(0), Splat(0), Splat(1))
    {
      a := Splat(0);
      b := Splat(0);
      c := Splat(0);
      counter := Splat(1);
    }

    /** One lock-step update of all lanes; `r` is what it emits. */
    method Next8Longs() returns (r: Vec8)
      modifies this
      ensures State() == VecStep(old(State()))
      ensures r == VecOutput(old(State()))
    {
      r := Add(Add(a, b), counter);
      counter := Add(counter, Splat(1));
      a := Xor(b, Shr(b, 11));
      b := Add(c, Shl(c, 3));
      c := Add(Or(Shl(c, 24), Shr(c, 40)), r);
    }

    /**
      * One pass of the batch loop, `next8Longs(&r[i + 0], ..., &r[i + 7])`,
      * when the first `n` outputs counted from `g0` are laid out in
      * `out[..i]`: the next update's eight words extend that layout.
      */
    method Next8LongsInto(out: array<bv64>, i: nat, ghost g0: Sfc, ghost n: nat)
      requires i == LANES * n && i + LANES <= out.Length
      requires State() == VecIterate(g0, n)
      requires Laid(out[..], VecOutputs(g0, n))
      modifies this, out
      ensures State() == VecIterate(g0, n + 1)
      ensures Laid(out[..], VecOutputs(g0, n + 1))
      ensures forall m :: i + LANES <= m < out.Length ==> out[m] == old(out[m])
    {
      ghost var before := out[..];
      var r := Next8Longs();
      StoreLanes(out, i, r);
      LaidAppend(before, out[..], VecOutputs(g0, n), r);
    }

    /**
      * Fills `out[0..2048]` step-major: word `8k + j` is lane `j`'s output
      * of step `k`.  Later words are left alone.  Every counter lane ends
      * 256 higher.
      */
    method Sfc64Large(out: array<bv64>)
      requires out.Length >= BATCH_SIZE
      modifies this, out
      ensures State() == VecIterate(old(State()), STEPS_PER_BATCH)
      ensures forall k, j :: 0 <= k < STEPS_PER_BATCH && 0 <= j < LANES ==>
                out[8 * k + j] == VecOutput(VecIterate(old(State()), k))[j]
      ensures forall m :: BATCH_SIZE <= m < out.Length ==> out[m] == old(out[m])
    {
      var i := 0;
      ghost var steps := 0;
      while i < BATCH_SIZE
        invariant i == 8 * steps && steps <= STEPS_PER_BATCH
        invariant State() == VecIterate(old(State()), steps)
        invariant Laid(out[..], VecOutputs(old(State()), steps))
        invariant forall m :: i <= m < out.Length ==> out[m] == old(out[m])
      {
        Next8LongsInto(out, i, old(State()), steps);
        i := i + 8;
        steps := steps + 1;
      }
      assert steps == STEPS_PER_BATCH;
      LaidOutputs(out[..], old(State()), steps);
    }

    /**
      * The 24 `insert` calls of `initSfc64`: lane `j` of `a`, `b` and `c`
      * becomes seed word `j`; `counter` is left as it is.
      */
    method LoadSeeds(v: Vec8)
      modifies this
      ensures State() == Loaded(v, old(counter))
    {
      a := Insert(a, 0, v[0]);
      a := Insert(a, 1, v[1]);
      a := Insert(a, 2, v[2]);
      a := Insert(a, 3, v[3]);
      a := Insert(a, 4, v[4]);
      a := Insert(a, 5, v[5]);
      a := Insert(a, 6, v[6]);
      a := Insert(a, 7, v[7]);
      EveryLaneInserted(old(a), v);
      b := Insert(b, 0, v[0]);
      b := Insert(b, 1, v[1]);
      b := Insert(b, 2, v[2]);
      b := Insert(b, 3, v[3]);
      b := Insert(b, 4, v[4]);
      b := Insert(b, 5, v[5]);
      b := Insert(b, 6, v[6]);
      b := Insert(b, 7, v[7]);
      EveryLaneInserted(old(b), v);
      c := Insert(c, 0, v[0]);
      c := Insert(c, 1, v[1]);
      c := Insert(c, 2, v[2]);
      c := Insert(c, 3, v[3]);
      c := Insert(c, 4, v[4]);
      c := Insert(c, 5, v[5]);
      c := Insert(c, 6, v[6]);
      c := Insert(c, 7, v[7]);
      EveryLaneInserted(old(c), v);
    }

    /**
      * The warm-up loop of `initSfc64`: twelve lock-step updates.  `last`
      * starts as the seed words, as the locals `val0 ... val7` do, and ends
      * holding the eight words of the twelfth update.
      */
    method WarmUp(seeds: Vec8) returns (last: Vec8)
      modifies this
      ensures State() == VecIterate(old(State()), WARMUP_STEPS)
      ensures last == VecOutput(VecIterate(old(State()), WARMUP_STEPS - 1))
    {
      last := seeds;
      for i := 0 to WARMUP_STEPS
        invariant State() == VecIterate(old(State()), i)
        invariant i > 0 ==> last == VecOutput(VecIterate(old(State()), i - 1))
      {
        last := Next8Longs();
      }
    }

    /**
      * Loads seed word `j` into `a`, `b` and `c` of lane `j`, then runs
      * twelve lock-step updates.  `counter` is not reset.  The result is
      * the XOR of the eight words of the twelfth update.
      */
    method InitSfc64(vals: array<bv64>) returns (x: bv64)
      requires vals.Length >= LANES
      modifies this
      ensures State() == VecIterate(Loaded(vals[..LANES], old(counter)), WARMUP_STEPS)
      ensures x == XorFold(VecOutput(VecIterate(Loaded(vals[..LANES], old(counter)), WARMUP_STEPS - 1)))
    {
      var val0, val1, val2, val3 := vals[0], vals[1], vals[2], vals[3];
      var val4, val5, val6, val7 := vals[4], vals[5], vals[6], vals[7];
      var seeds: Vec8 := [val0, val1, val2, val3, val4, val5, val6, val7];
      assert seeds == vals[..LANES];
      LoadSeeds(seeds);
      var last := WarmUp(seeds);
      x := XorFold(last);
    }
  }
}
