/**
  * Vigna's xorshift1024* generator with the multiplier 0x9e3779b97f4a7c13
  * (the golden ratio, hence the "phi"), run as eight independent lanes.
  *
  * The state is a ring of sixteen 8-lane vectors `s` and one cursor `pos`
  * shared by all lanes.  `Output`, `Step` and `Iterate` define one lane on
  * its own: the sixteen words `s[0][j], ..., s[15][j]` together with `pos`.
  * `RingOutput`, `RingStep` and `RingIterate` define the whole ring with
  * the vector expressions of the C++; the `...LaneWise` lemmas show that
  * lane `j` of the ring definition is the lane definition applied to lane
  * `j` alone.  The class `Generator` holds the ring and the cursor, and its
  * methods are proved to move them exactly as the ring definition says.
  */
module XorShift1024StarStarPhi {
  import opened Lanes

  /** Vectors in the ring. */
  const SLOTS: nat := 16
  /** The output multiplier. */
  const PHI: bv64 := 0x9e3779b97f4a7c13
  /** Lock-step updates per batch. */
  const STEPS_PER_BATCH: nat := 256
  /** Words written per batch (`SIZE` in `xor1024Large`). */
  const BATCH_SIZE: nat := 2048
  /** Seed words read by `initXor1024`: one per ring word. */
  const SEED_WORDS: nat := 128

  /** The next ring slot, wrapping from 15 back to 0. */
  function NextPos(p: int): (q: int)
    requires 0 <= p < SLOTS
    ensures 0 <= q < SLOTS
    ensures q == p + 1 || (p == SLOTS - 1 && q == 0)
  {
    if p == SLOTS - 1 then 0 else p + 1
  }

  /**
    * The C++ computes the next slot as `(pos + 1) & 15` on a 32-bit `int`;
    * for a cursor in `[0, 16)` that mask is exactly `NextPos`.
    */
  lemma NextPosIsMask(p: int)
    requires 0 <= p < SLOTS
    ensures ((p as bv32 + 1) & 15) as int == NextPos(p)
  {
  }

  /**
    * The new ring word `t` made from `s0 = s[pos]` and `s1 = s[pos + 1]`:
    * `s1 ^= s1 << 31; t = s1 ^ s0 ^ (s1 >> 11) ^ (s0 >> 30)`.
    */
  function Mix(s0: bv64, s1: bv64): bv64
  {
    var s1' := XorWord(s1, ShlWord(s1, 31));
    XorWord(XorWord(XorWord(s1', s0), ShrWord(s1', 11)), ShrWord(s0, 30))
  }

  /** The state of one lane: its sixteen ring words and the shared cursor. */
  datatype Lane = Lane(words: seq<bv64>, pos: int)

  predicate ValidLane(l: Lane)
  {
    |l.words| == SLOTS && 0 <= l.pos < SLOTS
  }

  /** The word a step emits, computed from the state before the step. */
  function Output(l: Lane): bv64
    requires ValidLane(l)
  {
    MulWord(Mix(l.words[l.pos], l.words[NextPos(l.pos)]), PHI)
  }

  /** One update of one lane: the cursor moves on and only its new slot is rewritten. */
  function Step(l: Lane): (l': Lane)
    requires ValidLane(l)
    ensures ValidLane(l')
  {
    var q := NextPos(l.pos);
    Lane(l.words[q := Mix(l.words[l.pos], l.words[q])], q)
  }

  /** The lane after `n` steps. */
  function Iterate(l: Lane, n: nat): (l': Lane)
    requires ValidLane(l)
    ensures ValidLane(l')
  {
    if n == 0 then l else Step(Iterate(l, n - 1))
  }

  lemma NextPosMod(x: nat)
    ensures NextPos(x % SLOTS) == (x + 1) % SLOTS
  {
  }

  /** The cursor advances by exactly one slot per step, modulo 16. */
  lemma {:induction false} PosAfter(l: Lane, n: nat)
    requires ValidLane(l)
    ensures Iterate(l, n).pos == (l.pos + n) % SLOTS
  {
    if n > 0 {
      PosAfter(l, n - 1);
      var before := Iterate(l, n - 1);
      assert Iterate(l, n).pos == NextPos(before.pos);
      NextPosMod(l.pos + n - 1);
    }
  }

  lemma WholeTurns(p: int, n: nat)
    requires 0 <= p < SLOTS && n % SLOTS == 0
    ensures (p + n) % SLOTS == p
  {
  }

  /**
    * A whole number of turns of the ring brings the cursor back to where it
    * started; a batch of 256 steps is sixteen turns.
    */
  lemma PosAfterWholeTurns(l: Lane, n: nat)
    requires ValidLane(l) && n % SLOTS == 0
    ensures Iterate(l, n).pos == l.pos
  {
    PosAfter(l, n);
    WholeTurns(l.pos, n);
  }

  /**
    * A lane is live while some ring word is non-zero.  The all-zero lane is
    * the one state the generator cannot leave (`ZeroLaneIsStuck`).
    */
  predicate Live(l: Lane)
  {
    exists k :: 0 <= k < |l.words| && l.words[k] != 0
  }

  lemma XorShr11Zero(x: bv64)
    requires x ^ (x >> 11) == 0
    ensures x == 0
  {
  }

  lemma XorShl31Zero(x: bv64)
    requires x ^ (x << 31) == 0
    ensures x == 0
  {
  }

  /** `Mix` yields zero only from two zero words. */
  lemma MixZero(s0: bv64, s1: bv64)
    requires s0 == 0 && Mix(s0, s1) == 0
    ensures s1 == 0
  {
    var s1' := XorWord(s1, ShlWord(s1, 31));
    assert s1' ^ (s1' >> 11) == 0;
    XorShr11Zero(s1');
    assert s1 ^ (s1 << 31) == 0;
    XorShl31Zero(s1);
  }

  /** A step never turns a live lane into the all-zero state. */
  lemma StepKeepsLive(l: Lane)
    requires ValidLane(l) && Live(l)
    ensures Live(Step(l))
  {
    var q := NextPos(l.pos);
    var w := Step(l).words;
    if !Live(Step(l)) {
      assert w[l.pos] == 0 && w[q] == 0;
      assert l.words[l.pos] == 0;
      assert w[q] == Mix(l.words[l.pos], l.words[q]);
      MixZero(l.words[l.pos], l.words[q]);
      forall k | 0 <= k < SLOTS
        ensures l.words[k] == 0
      {
        assert k == q || w[k] == l.words[k];
      }
      assert false;
    }
  }

  /** The all-zero lane emits 0 and steps to the all-zero lane. */
  lemma ZeroLaneIsStuck(l: Lane)
    requires ValidLane(l) && !Live(l)
    ensures Output(l) == 0
    ensures !Live(Step(l))
  {
    var q := NextPos(l.pos);
    assert l.words[l.pos] == 0 && l.words[q] == 0;
    assert Mix(0, 0) == 0;
    assert MulWord(0, PHI) == 0;
  }

  /** Liveness holds for ever once it holds. */
  lemma {:induction false} IterateKeepsLive(l: Lane, n: nat)
    requires ValidLane(l) && Live(l)
    ensures Live(Iterate(l, n))
  {
    if n > 0 {
      IterateKeepsLive(l, n - 1);
      StepKeepsLive(Iterate(l, n - 1));
    }
  }

  /**
    * The whole state, all eight lanes at once: the sixteen ring vectors and
    * the shared cursor.
    */
  datatype Ring = Ring(slots: seq<Vec8>, pos: int)

  predicate ValidRing(g: Ring)
  {
    |g.slots| == SLOTS && 0 <= g.pos < SLOTS
  }

  /** The vector expression for `t`; lane `j` of it is `Mix` of lane `j` of the inputs. */
  function MixVec(s0: Vec8, s1: Vec8): (t: Vec8)
    ensures forall j {:trigger t[j]} :: 0 <= j < LANES ==> t[j] == Mix(s0[j], s1[j])
  {
    var s1' := Xor(s1, Shl(s1, 31));
    Xor(Xor(Xor(s1', s0), Shr(s1', 11)), Shr(s0, 30))
  }

  /** The eight words one step emits, `t * PHI`. */
  function RingOutput(g: Ring): Vec8
    requires ValidRing(g)
  {
    Mul(MixVec(g.slots[g.pos], g.slots[NextPos(g.pos)]), Splat(PHI))
  }

  /** One lock-step update: the cursor moves on and its new slot becomes `t`. */
  function RingStep(g: Ring): (g': Ring)
    requires ValidRing(g)
    ensures ValidRing(g')
  {
    var q := NextPos(g.pos);
    Ring(g.slots[q := MixVec(g.slots[g.pos], g.slots[q])], q)
  }

  /** The state after `n` lock-step updates. */
  function RingIterate(g: Ring, n: nat): (g': Ring)
    requires ValidRing(g)
    ensures ValidRing(g')
  {
    if n == 0 then g else RingStep(RingIterate(g, n - 1))
  }

  /** The outputs of the first `n` lock-step updates from `g`, in order. */
  function RingOutputs(g: Ring, n: nat): (rows: seq<Vec8>)
    requires ValidRing(g)
    ensures |rows| == n
    ensures forall k {:trigger rows[k]} :: 0 <= k < n ==> rows[k] == RingOutput(RingIterate(g, k))
  {
    if n == 0 then [] else RingOutputs(g, n - 1) + [RingOutput(RingIterate(g, n - 1))]
  }

  /** A buffer holding the first `n` outputs step-major, word by word. */
  lemma LaidOutputs(o: seq<bv64>, g: Ring, n: nat)
    requires ValidRing(g) && Laid(o, RingOutputs(g, n))
    ensures forall k, j :: 0 <= k < n && 0 <= j < LANES ==> o[8 * k + j] == RingOutput(RingIterate(g, k))[j]
  {
    forall k, j | 0 <= k < n && 0 <= j < LANES
      ensures o[8 * k + j] == RingOutput(RingIterate(g, k))[j]
    {
      assert o[8 * k + j] == RingOutputs(g, n)[k][j];
    }
  }

  /** Lane `j` of every vector in `rows`. */
  function Column(rows: seq<Vec8>, j: nat): (col: seq<bv64>)
    requires j < LANES
    ensures |col| == |rows|
    ensures forall k {:trigger col[k]} :: 0 <= k < |rows| ==> col[k] == rows[k][j]
  {
    seq(|rows|, k requires 0 <= k < |rows| => rows[k][j])
  }

  /** Lane `j` of the state: its sixteen ring words and the shared cursor. */
  function LaneOf(g: Ring, j: nat): (l: Lane)
    requires j < LANES
    ensures ValidRing(g) ==> ValidLane(l)
  {
    Lane(Column(g.slots, j), g.pos)
  }

  /**
    * The eight lanes and the cursor are the whole ring: two rings whose
    * lanes all agree are the same ring.
    */
  lemma LanesDetermineRing(g: Ring, h: Ring)
    requires ValidRing(g) && ValidRing(h) && g.pos == h.pos
    requires forall j :: 0 <= j < LANES ==> LaneOf(g, j) == LaneOf(h, j)
    ensures g == h
  {
    forall col | 0 <= col < SLOTS
      ensures g.slots[col] == h.slots[col]
    {
      forall j | 0 <= j < LANES
        ensures g.slots[col][j] == h.slots[col][j]
      {
        assert LaneOf(g, j).words[col] == LaneOf(h, j).words[col];
      }
    }
  }

  /** Lane `j`'s output word depends on lane `j` alone. */
  lemma OutputLaneWise(g: Ring, j: nat)
    requires ValidRing(g) && j < LANES
    ensures RingOutput(g)[j] == Output(LaneOf(g, j))
  {
  }

  /** Lanes are independent: lane `j` after a step depends on lane `j` before it alone. */
  lemma StepLaneWise(g: Ring, j: nat)
    requires ValidRing(g) && j < LANES
    ensures LaneOf(RingStep(g), j) == Step(LaneOf(g, j))
  {
    var q := NextPos(g.pos);
    var w := LaneOf(g, j).words;
    assert Column(RingStep(g).slots, j) == w[q := Mix(w[g.pos], w[q])];
  }

  /** After `n` lock-step updates, lane `j` is where `n` steps of that lane alone take it. */
  lemma {:induction false} IterateLaneWise(g: Ring, n: nat, j: nat)
    requires ValidRing(g) && j < LANES
    ensures LaneOf(RingIterate(g, n), j) == Iterate(LaneOf(g, j), n)
  {
    if n > 0 {
      IterateLaneWise(g, n - 1, j);
      StepLaneWise(RingIterate(g, n - 1), j);
    }
  }

  /** A whole number of turns leaves the shared cursor where it was. */
  lemma RingPosAfterWholeTurns(g: Ring, n: nat)
    requires ValidRing(g) && n % SLOTS == 0
    ensures RingIterate(g, n).pos == g.pos
  {
    IterateLaneWise(g, n, 0);
    PosAfterWholeTurns(LaneOf(g, 0), n);
  }

  /**
    * If every word of a lane's column is non-zero, that lane is live after
    * any number of lock-step updates: it never reaches the all-zero state.
    */
  lemma RingStaysLive(g: Ring, n: nat, j: nat)
    requires ValidRing(g) && j < LANES
    requires forall col :: 0 <= col < SLOTS ==> g.slots[col][j] != 0
    ensures Live(LaneOf(RingIterate(g, n), j))
  {
    assert LaneOf(g, j).words[0] != 0;
    IterateKeepsLive(LaneOf(g, j), n);
    IterateLaneWise(g, n, j);
  }

  /** Word `j` of the `k`-th update's output is lane `j`'s own output after `k` steps. */
  lemma OutputAfterLaneWise(g: Ring, k: nat, j: nat)
    requires ValidRing(g) && j < LANES
    ensures RingOutput(RingIterate(g, k))[j] == Output(Iterate(LaneOf(g, j), k))
  {
    OutputLaneWise(RingIterate(g, k), j);
    IterateLaneWise(g, k, j);
  }

  /** The all-zero lane stays all-zero and emits 0 at every step. */
  lemma {:induction false} IterateStuck(l: Lane, n: nat)
    requires ValidLane(l) && !Live(l)
    ensures !Live(Iterate(l, n)) && Output(Iterate(l, n)) == 0
  {
    if n > 0 {
      IterateStuck(l, n - 1);
      ZeroLaneIsStuck(Iterate(l, n - 1));
    }
    ZeroLaneIsStuck(Iterate(l, n));
  }

  /**
    * If every word of a lane's column is 0, that lane emits 0 at every
    * later step and its column stays all-zero: the counterpart of
    * `RingStaysLive`.
    */
  lemma RingStaysZero(g: Ring, n: nat, j: nat)
    requires ValidRing(g) && j < LANES
    requires forall col :: 0 <= col < SLOTS ==> g.slots[col][j] == 0
    ensures RingOutput(RingIterate(g, n))[j] == 0
    ensures forall col :: 0 <= col < SLOTS ==> RingIterate(g, n).slots[col][j] == 0
  {
    var l := LaneOf(g, j);
    assert !Live(l) by {
      forall k | 0 <= k < |l.words|
        ensures l.words[k] == 0
      {
        assert l.words[k] == g.slots[k][j];
      }
    }
    IterateStuck(l, n);
    IterateLaneWise(g, n, j);
    OutputLaneWise(RingIterate(g, n), j);
    var w := LaneOf(RingIterate(g, n), j).words;
    forall col | 0 <= col < SLOTS
      ensures RingIterate(g, n).slots[col][j] == 0
    {
      assert w[col] == RingIterate(g, n).slots[col][j];
    }
  }

  /**
    * The ring and the cursor.  The C++ keeps them as process-wide statics;
    * here they are the fields of one object.
    */
  class Generator {
    const s: array<Vec8>
    var pos: int

    ghost predicate Valid()
      reads this
    {
      s.Length == SLOTS && 0 <= pos < SLOTS
    }

    /** The ring's contents and the cursor, as a value. */
    ghost function State(): (g: Ring)
      reads this, s
      requires Valid()
      ensures ValidRing(g)
    {
      Ring(s[..], pos)
    }

    /** Static storage starts zeroed: every ring word is 0 and `pos` is 0. */
    constructor ()
      ensures Valid() && fresh(s)
      ensures forall k :: 0 <= k < SLOTS ==> s[k] == Splat(0)
      ensures pos == 0
    {
      s := new Vec8[SLOTS](_ => Splat(0));
      pos := 0;
    }

    /**
      * One lock-step update of all lanes: `pos` moves to the next slot,
      * that slot alone is overwritten with `t`, and `r` is `t * PHI`.
      */
    method Next8Longs() returns (r: Vec8)
      requires Valid()
      modifies this, s
      ensures Valid()
      ensures State() == RingStep(old(State()))
      ensures r == RingOutput(old(State()))
      ensures pos == NextPos(old(pos))
      ensures forall k :: 0 <= k < SLOTS && k != pos ==> s[k] == old(s[k])
    {
      var s0 := s[pos];
      pos := NextPos(pos);
      var s1 := s[pos];
      s1 := Xor(s1, Shl(s1, 31));
      var t := Xor(Xor(Xor(s1, s0), Shr(s1, 11)), Shr(s0, 30));
      s[pos] := t;
      r := Mul(t, Splat(PHI));
    }

    /**
      * One pass of the batch loop, `next8Longs(&out[i + 0], ..., &out[i + 7])`,
      * when the first `n` outputs counted from `g0` are laid out in
      * `out[..i]`: the next step's eight words extend that layout.
      */
    method Next8LongsInto(out: array<bv64>, i: nat, ghost g0: Ring, ghost n: nat)
      requires Valid() && ValidRing(g0) && out as object != s as object
      requires i == LANES * n && i + LANES <= out.Length
      requires State() == RingIterate(g0, n)
      requires Laid(out[..], RingOutputs(g0, n))
      modifies this, s, out
      ensures Valid() && State() == RingIterate(g0, n + 1)
      ensures Laid(out[..], RingOutputs(g0, n + 1))
      ensures forall m :: i + LANES <= m < out.Length ==> out[m] == old(out[m])
    {
      ghost var before := out[..];
      var r := Next8Longs();
      StoreLanes(out, i, r);
      LaidAppend(before, out[..], RingOutputs(g0, n), r);
    }

    /**
      * Fills `out[0..2048]` step-major: word `8k + j` is lane `j` of the
      * output of step `k`.  Later words are left alone.  256 steps are
      * sixteen turns of the ring, so `pos` ends where it started.
      */
    method Xor1024Large(out: array<bv64>)
      requires Valid() && out.Length >= BATCH_SIZE
      modifies this, s, out
      ensures Valid()
      ensures State() == RingIterate(old(State()), STEPS_PER_BATCH)
      ensures forall k, j :: 0 <= k < STEPS_PER_BATCH && 0 <= j < LANES ==>
                out[8 * k + j] == RingOutput(RingIterate(old(State()), k))[j]
      ensures forall m :: BATCH_SIZE <= m < out.Length ==> out[m] == old(out[m])
      ensures pos == old(pos)
    {
      var i := 0;
      ghost var steps := 0;
      while i < BATCH_SIZE
        invariant Valid()
        invariant i == 8 * steps && steps <= STEPS_PER_BATCH
        invariant State() == RingIterate(old(State()), steps)
        invariant Laid(out[..], RingOutputs(old(State()), steps))
        invariant forall m :: i <= m < out.Length ==> out[m] == old(out[m])
      {
        Next8LongsInto(out, i, old(State()), steps);
        i := i + 8;
        steps := steps + 1;
      }
      assert steps == STEPS_PER_BATCH;
      LaidOutputs(out[..], old(State()), steps);
      RingPosAfterWholeTurns(old(State()), STEPS_PER_BATCH);
    }

    /**
      * Scatters 128 seed words over the ring, row by row: lane `row` of
      * `s[col]` becomes `vals[16 * row + col]`.  `pos` is not touched.
      */
    method InitXor1024(vals: array<bv64>)
      requires Valid() && vals.Length >= SEED_WORDS
      modifies s
      ensures Valid() && pos == old(pos)
      ensures forall row, col :: 0 <= row < LANES && 0 <= col < SLOTS ==> s[col][row] == vals[16 * row + col]
    {
      var k := 0;
      for row := 0 to LANES
        invariant k == 16 * row
        invariant forall r, c :: 0 <= r < row && 0 <= c < SLOTS ==> s[c][r] == vals[16 * r + c]
      {
        for col := 0 to SLOTS
          invariant k == 16 * row + col
          invariant forall r, c :: 0 <= r < row && 0 <= c < SLOTS ==> s[c][r] == vals[16 * r + c]
          invariant forall c :: 0 <= c < col ==> s[c][row] == vals[16 * row + c]
        {
          s[col] := Insert(s[col], row, vals[k]);
          k := k + 1;
        }
      }
    }
  }
}
