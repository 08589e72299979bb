# cramer vector RNGs in Dafny

This project models the two 8-lane 64-bit pseudo-random generators of the
`cramer` library's native AVX2 code, and the Java class `RNG` that guards
them.

- **Sfc64** (`Sfc64.cpp`) is Chris Doty-Humphrey's Small Fast Counting
  generator, run as 8 independent lanes. Its state is four 8-lane vectors
  `a`, `b`, `c` and `counter`. `next8Longs` updates every lane once and emits
  8 words. `sfc64Large` runs 256 such steps into a 2048-word buffer, step by
  step. `initSfc64` loads 8 seed words and discards 12 steps.
- **XorShift1024\*φ** (`XorShift1024StarStarPhi.cpp`) is Vigna's
  xorshift1024\* with multiplier `0x9e3779b97f4a7c13`, run as 8 lanes. Its
  state is a ring of 16 vectors `s` and one cursor `pos` shared by all lanes.
  `next8Longs` moves `pos` on by one slot, overwrites that slot, and emits 8
  multiplied words. `xor1024Large` fills a 2048-word buffer. `initXor1024`
  scatters 128 seed words over the ring.
- **`RNG.java`** checks the caller's arrays and only then calls a kernel.
  `checkRandom` wants a buffer of at least 2048 words. `checkSeed` wants at
  least N seed words, none of the first N being 0.

Files:

- `lanes.dfy` (module `Lanes`): the `Vec8uq` vector type as a value
  (`Vec8`, a sequence of 8 `bv64`), its wrapping lane-wise operations, the
  eight pointer stores that end `next8Longs`, and the step-major buffer
  layout `Laid`.
- `sfc64.dfy` (module `Sfc64`) and `xorshift1024.dfy` (module
  `XorShift1024StarStarPhi`): each generator has three parts.
  - A reference definition of one lane on its own (`Output`, `Step`,
    `Iterate`).
  - A definition of the whole vector state (`VecStep`/`RingStep` and
    friends), with lemmas that lane `j` of the whole state moves exactly as
    the one-lane definition says.
  - A class `Generator` whose fields are the C++ statics. Its methods follow
    the C++ statement by statement and are proved against the whole-state
    definition.
- `rng.dfy` (module `Rng`): the Java constants, checks and entry points. A
  Java exception becomes a `Fail` outcome that carries its reason.

`uint64_t` arithmetic is `bv64`, so wrap-around is exact. Java `long`
arrays are arrays of `bv64`: they hold the same 64 bits, and the only test
on them (`== 0L`) does not depend on the sign.

## Model

| member | source | states |
|---|---|---|
| Lanes.StoreLanes | src/main/cpp/vector_avx2/Sfc64.cpp:47-54 | the eight stores `*r0 = r[0] ... *r7 = r[7]` put lane `j` at `out[i + j]` and change no other word of the buffer |
| Lanes.LaidAppend | src/main/cpp/vector_avx2/Sfc64.cpp:73-75 | storing the next step's 8 words right after the first `k` steps' words extends the step-major layout (word `8k + j` = lane `j` of step `k`) by one step |
| Sfc64.Rotl24 | src/main/cpp/vector_avx2/Sfc64.cpp:45 | the C++ rotate `(c << 24)` OR `(c >> 40)` is exactly the 64-bit left rotation by 24 |
| Sfc64.IncAdd | src/main/cpp/vector_avx2/Sfc64.cpp:42 | `m` increments followed by `n` increments are `m + n` increments |
| Sfc64.IncBatch | src/main/cpp/vector_avx2/Sfc64.cpp:73-75 | 256 wrapping increments add exactly 256 modulo 2^64 |
| Sfc64.IncWarmup | src/main/cpp/vector_avx2/Sfc64.cpp:122-124 | 12 wrapping increments add exactly 12 modulo 2^64 |
| Sfc64.CounterAdvance | src/main/cpp/vector_avx2/Sfc64.cpp:42 | each step increments a lane's counter by exactly one, wrapping at 2^64, whatever `a`, `b`, `c` hold |
| Sfc64.CounterAfterBatches | src/main/cpp/vector_avx2/Sfc64.cpp:37-127 | after seeding and `N` batches, a lane's counter is its value before seeding plus 12, incremented `256 N` more times: seeding does not reset it |
| Sfc64.VecOutputs | src/main/cpp/vector_avx2/Sfc64.cpp:73-75 | row `k` of the first `n` outputs is what the state after `k` steps emits |
| Sfc64.VecIterateAdd | src/main/cpp/vector_avx2/Sfc64.cpp:73-75 | `m` lock-step updates followed by `n` more are `m + n` updates, so consecutive calls (seeding, then batches) compose |
| Sfc64.OutputLaneWise | src/main/cpp/vector_avx2/Sfc64.cpp:41 | output lane `j` is `a + b + counter` of lane `j` before the step, and of nothing else |
| Sfc64.StepLaneWise | src/main/cpp/vector_avx2/Sfc64.cpp:41-45 | lane `j` of the next state is one `Step` of lane `j` alone: `a := b ^ (b >> 11)`, `b := c + (c << 3)`, `c := rotl(c, 24) + r`, `counter := counter + 1`, all from the values before the step |
| Sfc64.IterateLaneWise | src/main/cpp/vector_avx2/Sfc64.cpp:40-45 | after `n` lock-step updates lane `j` is where `n` steps of that lane alone take it |
| Sfc64.LoadedLaneWise | src/main/cpp/vector_avx2/Sfc64.cpp:98-124 | after loading the seeds and `n` steps, lane `j` is `n` steps from `a = b = c = seed[j]` with its old counter |
| Sfc64.CounterAfter | src/main/cpp/vector_avx2/Sfc64.cpp:42 | `n` lock-step updates add `n` to every counter lane, wrapping |
| Sfc64.BatchCounter | src/main/cpp/vector_avx2/Sfc64.cpp:73-75 | a batch adds exactly 256 (mod 2^64) to every counter lane |
| Sfc64.WarmUpCounter | src/main/cpp/vector_avx2/Sfc64.cpp:122-124 | the warm-up adds exactly 12 (mod 2^64) to every counter lane |
| Sfc64.LaidOutputs | src/main/cpp/vector_avx2/Sfc64.cpp:73-75 | a buffer laid out step-major holds, at word `8k + j`, lane `j` of the `k`-th step's output |
| Sfc64.OutputAfterLaneWise | src/main/cpp/vector_avx2/Sfc64.cpp:73-75 | word `j` of step `k`'s output is lane `j`'s own output after `k` steps of that lane alone |
| Sfc64.Generator.constructor | src/main/cpp/vector_avx2/Sfc64.cpp:34-37 | static storage: `a`, `b`, `c` start at 0 and `counter` at 1 in every lane |
| Sfc64.Generator.Next8Longs | src/main/cpp/vector_avx2/Sfc64.cpp:40-45 | one update: the new state is `VecStep` of the old one and `r` is `a + b + counter` of the old one |
| Sfc64.Generator.Next8LongsInto | src/main/cpp/vector_avx2/Sfc64.cpp:73-75 | one pass of the batch loop extends the buffer layout by one step and changes no word beyond it |
| Sfc64.Generator.Sfc64Large | src/main/cpp/vector_avx2/Sfc64.cpp:66-77 | the state ends 256 steps on; word `8k + j` is lane `j` of step `k`'s output for `k < 256`; words from 2048 on are untouched |
| Sfc64.Generator.LoadSeeds | src/main/cpp/vector_avx2/Sfc64.cpp:98-121 | the 24 `insert` calls make `a = b = c = seeds` and leave `counter` as it was |
| Sfc64.Generator.WarmUp | src/main/cpp/vector_avx2/Sfc64.cpp:122-124 | 12 steps are run; `last` starts as the seed words and ends holding the 12th step's 8 words |
| Sfc64.Generator.InitSfc64 | src/main/cpp/vector_avx2/Sfc64.cpp:84-127 | the state is 12 steps from `a = b = c = vals[0..8]` with the counter it had before; the result is the XOR of the 12th step's 8 words |
| XorShift1024StarStarPhi.NextPos | src/main/cpp/vector_avx2/XorShift1024StarStarPhi.cpp:44 | the next cursor stays in `[0, 16)`: one more, or 0 after 15 |
| XorShift1024StarStarPhi.NextPosIsMask | src/main/cpp/vector_avx2/XorShift1024StarStarPhi.cpp:44 | for a cursor in `[0, 16)` the C++ `(pos + 1) & 15` is exactly `NextPos` |
| XorShift1024StarStarPhi.PosAfter | src/main/cpp/vector_avx2/XorShift1024StarStarPhi.cpp:44 | after `n` steps the cursor is `(pos + n) mod 16`: one slot per step |
| XorShift1024StarStarPhi.PosAfterWholeTurns | src/main/cpp/vector_avx2/XorShift1024StarStarPhi.cpp:76-78 | a multiple of 16 steps brings a lane's cursor back to where it was |
| XorShift1024StarStarPhi.MixZero | src/main/cpp/vector_avx2/XorShift1024StarStarPhi.cpp:46-47 | with `s0 = 0`, the new word `t` is 0 only when `s1` is 0 |
| XorShift1024StarStarPhi.StepKeepsLive | src/main/cpp/vector_avx2/XorShift1024StarStarPhi.cpp:43-48 | a step never turns a lane with a non-zero ring word into the all-zero lane |
| XorShift1024StarStarPhi.ZeroLaneIsStuck | src/main/cpp/vector_avx2/XorShift1024StarStarPhi.cpp:43-49 | the all-zero lane emits 0 and stays all-zero |
| XorShift1024StarStarPhi.IterateKeepsLive | src/main/cpp/vector_avx2/XorShift1024StarStarPhi.cpp:43-48 | a live lane stays live for any number of steps |
| XorShift1024StarStarPhi.MixVec | src/main/cpp/vector_avx2/XorShift1024StarStarPhi.cpp:46-47 | lane `j` of the vector `t` is `Mix` of lane `j` of `s0` and `s1` alone |
| XorShift1024StarStarPhi.RingStep | src/main/cpp/vector_avx2/XorShift1024StarStarPhi.cpp:43-48 | a step keeps 16 slots and a cursor in `[0, 16)` |
| XorShift1024StarStarPhi.RingOutputs | src/main/cpp/vector_avx2/XorShift1024StarStarPhi.cpp:76-78 | row `k` of the first `n` outputs is what the ring after `k` steps emits |
| XorShift1024StarStarPhi.LaidOutputs | src/main/cpp/vector_avx2/XorShift1024StarStarPhi.cpp:76-78 | a buffer laid out step-major holds, at word `8k + j`, lane `j` of the `k`-th step's output |
| XorShift1024StarStarPhi.LanesDetermineRing | src/main/cpp/vector_avx2/XorShift1024StarStarPhi.cpp:37-39 | the eight lanes (`s[0][j] ... s[15][j]` with `pos`) are the whole ring: two rings with the same cursor whose lanes all agree are equal, so the per-lane view loses nothing |
| XorShift1024StarStarPhi.OutputLaneWise | src/main/cpp/vector_avx2/XorShift1024StarStarPhi.cpp:43-49 | output lane `j` is `t[j] * 0x9e3779b97f4a7c13` (mod 2^64), computed from lane `j` of `s[oldPos]` and `s[newPos]` alone |
| XorShift1024StarStarPhi.StepLaneWise | src/main/cpp/vector_avx2/XorShift1024StarStarPhi.cpp:43-48 | lane `j` of the next ring is one `Step` of lane `j` alone: the cursor moves on and only its new slot gets the new word |
| XorShift1024StarStarPhi.IterateLaneWise | src/main/cpp/vector_avx2/XorShift1024StarStarPhi.cpp:42-59 | after `n` lock-step updates lane `j` is where `n` steps of that lane alone take it |
| XorShift1024StarStarPhi.RingPosAfterWholeTurns | src/main/cpp/vector_avx2/XorShift1024StarStarPhi.cpp:72-78 | a multiple of 16 steps, such as a 256-step batch, leaves the shared cursor where it was |
| XorShift1024StarStarPhi.RingStaysLive | src/main/cpp/vector_avx2/XorShift1024StarStarPhi.cpp:43-48 | a lane whose 16 ring words are all non-zero never reaches the all-zero state |
| XorShift1024StarStarPhi.OutputAfterLaneWise | src/main/cpp/vector_avx2/XorShift1024StarStarPhi.cpp:76-78 | word `j` of step `k`'s output is lane `j`'s own output after `k` steps of that lane alone |
| XorShift1024StarStarPhi.IterateStuck | src/main/cpp/vector_avx2/XorShift1024StarStarPhi.cpp:43-49 | the all-zero lane stays all-zero and emits 0 after any number of steps |
| XorShift1024StarStarPhi.RingStaysZero | src/main/cpp/vector_avx2/XorShift1024StarStarPhi.cpp:43-49 | a lane whose 16 ring words are all 0 emits 0 at every later step and its words stay 0 |
| XorShift1024StarStarPhi.Generator.constructor | src/main/cpp/vector_avx2/XorShift1024StarStarPhi.cpp:36-39 | static storage: every ring word is 0 and `pos` is 0 |
| XorShift1024StarStarPhi.Generator.Next8Longs | src/main/cpp/vector_avx2/XorShift1024StarStarPhi.cpp:42-49 | `pos` moves to `NextPos(pos)` and stays in `[0, 16)`; slot `s[newPos]` becomes `t` and the other 15 slots are unchanged; `r = t * PHI` |
| XorShift1024StarStarPhi.Generator.Next8LongsInto | src/main/cpp/vector_avx2/XorShift1024StarStarPhi.cpp:76-78 | one pass of the batch loop extends the buffer layout by one step and changes no word beyond it |
| XorShift1024StarStarPhi.Generator.Xor1024Large | src/main/cpp/vector_avx2/XorShift1024StarStarPhi.cpp:69-80 | the ring ends 256 steps on with `pos` back where it started; word `8k + j` is lane `j` of step `k`'s output; words from 2048 on are untouched |
| XorShift1024StarStarPhi.Generator.InitXor1024 | src/main/cpp/vector_avx2/XorShift1024StarStarPhi.cpp:87-98 | lane `row` of `s[col]` becomes `vals[16 row + col]` for every `row < 8`, `col < 16`; `pos` is not touched |
| Rng.SizesAgree | src/main/java/net/cramer/simd/RNG.java:22-24 | `FETCH_SIZE` = 2048 is the kernels' batch size; the seed lengths are 8 = one per lane and 128 = 16 slots of 8 lanes |
| Rng.CheckRandom | src/main/java/net/cramer/simd/RNG.java:55-59 | passes exactly when the buffer is non-null and at least 2048 long; null fails with `"random"`, a short buffer with the length |
| Rng.FirstZero | src/main/java/net/cramer/simd/RNG.java:65-69 | no result exactly when no word is 0; otherwise the index of a 0 word with no 0 before it |
| Rng.SeedPasses | src/main/java/net/cramer/simd/RNG.java:61-70 | a seed passes exactly when it has at least `minSeedLength` words and none of the first `minSeedLength` is 0 |
| Rng.SeedZeroIsFirst | src/main/java/net/cramer/simd/RNG.java:65-69 | a rejected zero is reported at the lowest index below `minSeedLength` that holds 0 |
| Rng.SeedTailIgnored | src/main/java/net/cramer/simd/RNG.java:65-69 | changing a word at or beyond `minSeedLength` never changes the verdict |
| Rng.CheckSeed | src/main/java/net/cramer/simd/RNG.java:61-70 | null fails with `"seed"`, then a short seed fails with the length, then the first zero among the first `minSeedLength` words fails with its index, else pass |
| Rng.UnseededXorBatchIsZero | src/main/java/net/cramer/simd/RNG.java:40-43 | from the load-time ring, where every word is 0, a batch writes 2048 zeros and leaves every ring word 0 |
| Rng.Rng.constructor | src/main/cpp/vector_avx2/Sfc64.cpp:34-37 | both generators start in their load-time state: the Sfc64 statics here, and the xorshift ring all 0 with `pos` 0 (XorShift1024StarStarPhi.cpp:36-39) |
| Rng.Rng.Next2048LongsSfc64 | src/main/java/net/cramer/simd/RNG.java:35-38 | the outcome is `checkRandom`'s; on failure neither the generator nor the buffer changes; on success it is one Sfc64 batch |
| Rng.Rng.Next2048LongsXor1024 | src/main/java/net/cramer/simd/RNG.java:40-43 | the outcome is `checkRandom`'s; on failure neither the ring, the cursor nor the buffer changes; on success it is one xorshift batch |
| Rng.Rng.SeedSfc64 | src/main/java/net/cramer/simd/RNG.java:45-48 | the outcome is `checkSeed(seed, 8)`'s; on failure the generator is unchanged; on success it is 12 steps from the loaded seeds with the old counter |
| Rng.Rng.SeedXor1024 | src/main/java/net/cramer/simd/RNG.java:50-53 | the outcome is `checkSeed(seed, 128)`'s; on failure the ring is unchanged; on success every ring word is its seed word, all 128 are non-zero, and no lane is ever all-zero afterwards |

## Behaviour worth knowing

- `initSfc64` never loads or resets `counter` (Sfc64.cpp:84-127); its
  warm-up advances it by 12, since each `next8Longs` call increments it
  (Sfc64.cpp:42, 122-124). It is 1 in every lane when the library loads
  (Sfc64.cpp:37) and keeps counting across seedings: after a seeding and `N` batches it has advanced by
  `12 + 256 N` (`CounterAfterBatches`, with `VecIterateAdd` to chain the
  method contracts).
- `pos` moves once per step, not once per batch
  (XorShift1024StarStarPhi.cpp:44): 256 times per batch, which is 16 whole
  turns, so a batch ends where it started.
- `initXor1024` does not reset `pos` (XorShift1024StarStarPhi.cpp:87-98),
  so the cursor `M` steps after seeding is `(pos + M) mod 16`.
- The kernels' comments ask for a buffer of length exactly 2048
  (Sfc64.cpp:68, XorShift1024StarStarPhi.cpp:71). `checkRandom` accepts any
  length of at least 2048 (RNG.java:55-59), and the kernels write only the
  first 2048 words and leave the rest as they were.
- The comment at Sfc64.cpp:86 asks for 8 distinct seed values. Nothing
  checks that the seeds are distinct: `checkSeed` only rejects zero words
  (RNG.java:61-70).
- Nothing makes a caller seed before drawing. The xorshift ring starts
  with every word 0 (XorShift1024StarStarPhi.cpp:39), which is the one
  state it cannot leave: until `seedXor1024` is called, every
  `next2048LongsXor1024` fills the buffer with zeros
  (`UnseededXorBatchIsZero`, from `RingStaysZero`).

## Left out

- `vectorize.cpp` and `SIMD.java`: the floating-point norms and their JNI
  and Java adapters are not part of this model. So are the stubs that
  always return false.
- JNI buffer pinning (`GetPrimitiveArrayCritical`/`Release...`), the
  `PREFETCH` cache hints and `System.loadLibrary`: they do not change any
  value. `initXor1024` releases the pointer it has advanced rather than the
  one it obtained; this model does not cover the JNI calls, so it does not
  capture that.
- `*vals++` in `initXor1024` reads `vals[k]` with `k = 16 row + col`; the
  model indexes the array rather than moving a pointer.
- Thread safety: the C++ state is process-wide and unsynchronised. Here each
  generator is one object with one owner.
- Statistical quality, period and equidistribution: the code states none of
  them.
- The tests under `src/test/` are performance benchmarks against another
  library and are not part of this model.
- `RNG`'s private constructor, which always throws, is not modelled. The
  class `Rng` stands for the native state behind the static methods.
- `Next8LongsInto` (xorshift): requires that the caller's buffer is not
  the ring array itself. A Java `long[]` can never be the C++ static ring,
  but the verifier cannot tell an `array<bv64>` and an `array<Vec8>` apart
  by type, and a single pass knows only `i + 8 <= out.Length`. The batch
  methods need no such clause: a buffer of 2048 words cannot be the
  16-slot ring.
- Java `int` lengths and indices are modelled as unbounded naturals. No
  overflow is lost by that: array lengths are below 2^31, they are only
  compared with constants of at most 2048, and every index the code
  computes is below 2048 (a batch) or 128 (a seed).
