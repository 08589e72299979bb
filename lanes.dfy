/**
  * Eight-lane vectors of unsigned 64-bit words, the `Vec8uq` type of the
  * vector class library that both generators are written against.
  *
  * A `Vec8uq` is a value: `x = y + z` builds a new vector, and
  * `x.insert(i, v)` replaces lane `i`.  Every operation here is lane-wise,
  * with the wrapping (mod 2^64) arithmetic of `uint64_t`, which `bv64` gives
  * exactly.
  *
  * Each word operation is a named function, and the vector operation applies
  * it lane by lane.  The per-lane reference definitions of the generators are
  * written with the same word functions, so a lane of a vector expression and
  * the reference expression for that lane are the same term.
  */
module Lanes {

  /** Number of 64-bit lanes in one vector. */
  const LANES: nat := 8

  type Vec8 = v: seq<bv64> | |v| == LANES witness [0, 0, 0, 0, 0, 0, 0, 0]

  /** `uint64_t` addition, modulo 2^64. */
  function AddWord(x: bv64, y: bv64): bv64
  {
    x + y
  }

  /** `uint64_t` multiplication, modulo 2^64. */
  function MulWord(x: bv64, y: bv64): bv64
  {
    x * y
  }

  function XorWord(x: bv64, y: bv64): bv64
  {
    x ^ y
  }

  function OrWord(x: bv64, y: bv64): bv64
  {
    x | y
  }

  /** Logical shift left by `k` bits; bits shifted out are lost. */
  function ShlWord(w: bv64, k: bv64): bv64
    requires k <= 64
  {
    w << k
  }

  /** Logical (unsigned) shift right by `k` bits; zeros are shifted in. */
  function ShrWord(w: bv64, k: bv64): bv64
    requires k <= 64
  {
    w >> k
  }

  /** Every lane holds `x` (the broadcast constructor `Vec8uq(x)`). */
  function Splat(x: bv64): Vec8
  {
    seq(LANES, _ => x)
  }

  function Add(x: Vec8, y: Vec8): Vec8
  {
    seq(LANES, j requires 0 <= j < LANES => AddWord(x[j], y[j]))
  }

  function Mul(x: Vec8, y: Vec8): Vec8
  {
    seq(LANES, j requires 0 <= j < LANES => MulWord(x[j], y[j]))
  }

  function Xor(x: Vec8, y: Vec8): Vec8
  {
    seq(LANES, j requires 0 <= j < LANES => XorWord(x[j], y[j]))
  }

  function Or(x: Vec8, y: Vec8): Vec8
  {
    seq(LANES, j requires 0 <= j < LANES => OrWord(x[j], y[j]))
  }

  /** Lane-wise logical shift left by `k` bits. */
  function Shl(x: Vec8, k: bv64): Vec8
    requires k <= 64
  {
    seq(LANES, j requires 0 <= j < LANES => ShlWord(x[j], k))
  }

  /** Lane-wise logical (unsigned) shift right by `k` bits. */
  function Shr(x: Vec8, k: bv64): Vec8
    requires k <= 64
  {
    seq(LANES, j requires 0 <= j < LANES => ShrWord(x[j], k))
  }

  /** `x.insert(i, v)`: lane `i` becomes `v`, the others keep their value. */
  function Insert(x: Vec8, i: nat, v: bv64): Vec8
    requires i < LANES
  {
    x[i := v]
  }

  /**
    * The stores `*r0 = r[0]; ... *r7 = r[7]` that end both generators'
    * `next8Longs` when the batch loop passes `&out[i + 0], ..., &out[i + 7]`
    * as its eight pointers.
    */
  method StoreLanes(out: array<bv64>, i: nat, r: Vec8)
    requires i + LANES <= out.Length
    modifies out
    ensures forall j :: 0 <= j < LANES ==> out[i + j] == r[j]
    ensures forall n :: 0 <= n < out.Length && !(i <= n < i + LANES) ==> out[n] == old(out[n])
  {
    out[i + 0] := r[0];
    out[i + 1] := r[1];
    out[i + 2] := r[2];
    out[i + 3] := r[3];
    out[i + 4] := r[4];
    out[i + 5] := r[5];
    out[i + 6] := r[6];
    out[i + 7] := r[7];
  }

  /**
    * `o` holds the rows of `rows` one after another: word `8k + j` of `o` is
    * lane `j` of row `k`.  This is the step-major layout of a batch buffer.
    */
  ghost predicate Laid(o: seq<bv64>, rows: seq<Vec8>)
  {
    LANES * |rows| <= |o| &&
    forall k, j :: 0 <= k < |rows| && 0 <= j < LANES ==> o[LANES * k + j] == rows[k][j]
  }

  /** Storing one more row right after the laid-out ones extends the layout. */
  lemma LaidAppend(o: seq<bv64>, o2: seq<bv64>, rows: seq<Vec8>, r: Vec8)
    requires Laid(o, rows) && |o2| == |o| && LANES * |rows| + LANES <= |o|
    requires forall n :: 0 <= n < LANES * |rows| ==> o2[n] == o[n]
    requires forall j :: 0 <= j < LANES ==> o2[LANES * |rows| + j] == r[j]
    ensures Laid(o2, rows + [r])
  {
    var rows2 := rows + [r];
    forall k, j | 0 <= k < |rows2| && 0 <= j < LANES
      ensures o2[LANES * k + j] == rows2[k][j]
    {
      if k < |rows| {
        assert o2[LANES * k + j] == o[LANES * k + j];
      }
    }
  }
}
