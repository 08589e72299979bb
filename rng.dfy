/**
  * The Java front end of the two native generators.
  *
  * Every public entry point checks its argument first and only then calls
  * the native kernel.  A check that fails throws (`NullPointerException` or
  * `IllegalArgumentException`); here it returns `Fail` with the reason, and
  * the generator state and the caller's array are left exactly as they were.
  */
module Rng {
  import opened Lanes
  import Sfc64
  import XorShift1024StarStarPhi

  /** Words written by one batch call. */
  const FETCH_SIZE: nat := 8 * 256
  /** Seed words `initSfc64` reads: one per lane. */
  const SFC64_SEED_LENGTH: nat := 8
  /** Seed words `initXor1024` reads: sixteen ring slots of eight lanes. */
  const XOR1024_SEED_LENGTH: nat := 16 * 8

  /** The Java sizes are the ones the native kernels are written for. */
  lemma SizesAgree()
    ensures FETCH_SIZE == Sfc64.BATCH_SIZE == XorShift1024StarStarPhi.BATCH_SIZE
    ensures SFC64_SEED_LENGTH == LANES
    ensures XOR1024_SEED_LENGTH == XorShift1024StarStarPhi.SEED_WORDS == XorShift1024StarStarPhi.SLOTS * LANES
  {
  }

  /** Why a check throws. */
  datatype Failure =
    | NullArgument(name: string)   // `Objects.requireNonNull(x, name)`
    | TooShort(minLength: nat)     // array shorter than the required length
    | ZeroSeed(index: nat)         // a seed word that is 0

  datatype Outcome = Pass | Fail(failure: Failure)

  /** `checkRandom`: a non-null buffer of at least `FETCH_SIZE` words. */
  function CheckRandom(random: array?<bv64>): (o: Outcome)
    ensures o == Pass <==> random != null && random.Length >= FETCH_SIZE
    ensures random == null ==> o == Fail(NullArgument("random"))
    ensures random != null && random.Length < FETCH_SIZE ==> o == Fail(TooShort(FETCH_SIZE))
  {
    if random == null then Fail(NullArgument("random"))
    else if random.Length < FETCH_SIZE then Fail(TooShort(FETCH_SIZE))
    else Pass
  }

  datatype Option<T> = None | Some(value: T)

  /** The index of the first zero word of `s`, if there is one. */
  function FirstZero(s: seq<bv64>): (r: Option<nat>)
    ensures r == None <==> forall i :: 0 <= i < |s| ==> s[i] != 0
    ensures r.Some? ==> r.value < |s| && s[r.value] == 0 && forall k :: 0 <= k < r.value ==> s[k] != 0
  {
    if |s| == 0 then None
    else if s[0] == 0 then Some(0)
    else match FirstZero(s[1..])
      case None => None
      case Some(i) => Some(i + 1)
  }

  /**
    * What `checkSeed(seed, minSeedLength)` decides for a non-null seed:
    * too short, else the first zero among the first `minSeedLength`
    * words, else pass.
    */
  function SeedVerdict(s: seq<bv64>, minSeedLength: nat): Outcome
  {
    if |s| < minSeedLength then Fail(TooShort(minSeedLength))
    else match FirstZero(s[..minSeedLength])
      case None => Pass
      case Some(i) => Fail(ZeroSeed(i))
  }

  /** `checkSeed` on a possibly null array. */
  function SeedVerdictOf(seed: array?<bv64>, minSeedLength: nat): Outcome
    reads seed
  {
    if seed == null then Fail(NullArgument("seed")) else SeedVerdict(seed[..], minSeedLength)
  }

  /** A seed passes exactly when it is long enough and its first `minSeedLength` words are non-zero. */
  lemma SeedPasses(s: seq<bv64>, minSeedLength: nat)
    ensures SeedVerdict(s, minSeedLength) == Pass <==>
              |s| >= minSeedLength && forall i :: 0 <= i < minSeedLength ==> s[i] != 0
  {
    if |s| >= minSeedLength {
      var p := s[..minSeedLength];
      assert forall i :: 0 <= i < minSeedLength ==> p[i] == s[i];
    }
  }

  /** A zero seed word is reported at the lowest index where it occurs. */
  lemma SeedZeroIsFirst(s: seq<bv64>, minSeedLength: nat, i: nat)
    requires SeedVerdict(s, minSeedLength) == Fail(ZeroSeed(i))
    ensures i < minSeedLength && s[i] == 0
    ensures forall k :: 0 <= k < i ==> s[k] != 0
  {
    var p := s[..minSeedLength];
    assert p[i] == s[i];
    assert forall k :: 0 <= k < i ==> p[k] == s[k];
  }

  /** Words at or beyond `minSeedLength` are never looked at. */
  lemma SeedTailIgnored(s: seq<bv64>, minSeedLength: nat, i: nat, v: bv64)
    requires minSeedLength <= i < |s|
    ensures SeedVerdict(s[i := v], minSeedLength) == SeedVerdict(s, minSeedLength)
  {
    assert s[i := v][..minSeedLength] == s[..minSeedLength];
  }

  /**
    * `checkSeed`: reject a null seed, then one shorter than
    * `minSeedLength`, then scan the first `minSeedLength` words for a 0.
    */
  method CheckSeed(seed: array?<bv64>, minSeedLength: nat) returns (o: Outcome)
    ensures o == SeedVerdictOf(seed, minSeedLength)
  {
    if seed == null {
      return Fail(NullArgument("seed"));
    }
    if seed.Length < minSeedLength {
      return Fail(TooShort(minSeedLength));
    }
    ghost var p := seed[..minSeedLength];
    for i := 0 to minSeedLength
      invariant forall k :: 0 <= k < i ==> p[k] != 0
    {
      if seed[i] == 0 {
        assert p[i] == 0;
        return Fail(ZeroSeed(i));
      }
    }
    return Pass;
  }

  /**
    * Nothing in `RNG` makes callers seed before drawing.  From the load-time
    * ring, where every word is 0, an xorshift batch writes only zeros and
    * leaves every word 0, so every later batch does the same until
    * `seedXor1024` is called.
    */
  lemma UnseededXorBatchIsZero(g: XorShift1024StarStarPhi.Ring)
    requires XorShift1024StarStarPhi.ValidRing(g)
    requires forall col :: 0 <= col < XorShift1024StarStarPhi.SLOTS ==> g.slots[col] == Splat(0)
    ensures forall k, j :: 0 <= k < XorShift1024StarStarPhi.STEPS_PER_BATCH && 0 <= j < LANES ==>
              XorShift1024StarStarPhi.RingOutput(XorShift1024StarStarPhi.RingIterate(g, k))[j] == 0
    ensures forall col :: 0 <= col < XorShift1024StarStarPhi.SLOTS ==>
              XorShift1024StarStarPhi.RingIterate(g, XorShift1024StarStarPhi.STEPS_PER_BATCH).slots[col] == Splat(0)
  {
    forall k, j | 0 <= k < XorShift1024StarStarPhi.STEPS_PER_BATCH && 0 <= j < LANES
      ensures XorShift1024StarStarPhi.RingOutput(XorShift1024StarStarPhi.RingIterate(g, k))[j] == 0
    {
      XorShift1024StarStarPhi.RingStaysZero(g, k, j);
    }
    var g' := XorShift1024StarStarPhi.RingIterate(g, XorShift1024StarStarPhi.STEPS_PER_BATCH);
    forall col, j | 0 <= col < XorShift1024StarStarPhi.SLOTS && 0 <= j < LANES
      ensures g'.slots[col][j] == 0
    {
      XorShift1024StarStarPhi.RingStaysZero(g, XorShift1024StarStarPhi.STEPS_PER_BATCH, j);
    }
    forall col | 0 <= col < XorShift1024StarStarPhi.SLOTS
      ensures g'.slots[col] == Splat(0)
    {
      assert forall j :: 0 <= j < LANES ==> g'.slots[col][j] == 0;
    }
  }

  /**
    * The class `RNG` together with the native state behind it: the two
    * generators are process-wide, so there is one of each.
    */
  class Rng {
    const sfc: Sfc64.Generator
    const xor: XorShift1024StarStarPhi.Generator

    /** Both generators in their load-time state. */
    constructor ()
      ensures fresh(sfc) && fresh(xor) && fresh(xor.s) && xor.Valid()
      ensures sfc.State() == Sfc64.Sfc(Splat(0), Splat(0), Splat(0), Splat(1))
      ensures xor.pos == 0 && forall k :: 0 <= k < XorShift1024StarStarPhi.SLOTS ==> xor.s[k] == Splat(0)
    {
      sfc := new Sfc64.Generator();
      xor := new XorShift1024StarStarPhi.Generator();
    }

    /** `next2048LongsSfc64`: check the buffer, then run one Sfc64 batch into it. */
    method Next2048LongsSfc64(random: array?<bv64>) returns (o: Outcome)
      modifies sfc, random
      ensures o == CheckRandom(random)
      ensures o.Fail? ==> unchanged(sfc) && (random != null ==> unchanged(random))
      ensures o.Pass? ==> sfc.State() == Sfc64.VecIterate(old(sfc.State()), Sfc64.STEPS_PER_BATCH)
      ensures o.Pass? ==> forall k, j :: 0 <= k < Sfc64.STEPS_PER_BATCH && 0 <= j < LANES ==>
                random[8 * k + j] == Sfc64.VecOutput(Sfc64.VecIterate(old(sfc.State()), k))[j]
      ensures o.Pass? ==> forall m :: FETCH_SIZE <= m < random.Length ==> random[m] == old(random[m])
    {
      o := CheckRandom(random);
      if o.Pass? {
        sfc.Sfc64Large(random);
      }
    }

    /** `next2048LongsXor1024`: check the buffer, then run one xorshift batch into it. */
    method Next2048LongsXor1024(random: array?<bv64>) returns (o: Outcome)
      requires xor.Valid()
      modifies xor, xor.s, random
      ensures xor.Valid() && o == CheckRandom(random)
      ensures o.Fail? ==> unchanged(xor, xor.s) && (random != null ==> unchanged(random))
      ensures o.Pass? ==>
                xor.State() == XorShift1024StarStarPhi.RingIterate(old(xor.State()), XorShift1024StarStarPhi.STEPS_PER_BATCH)
      ensures o.Pass? ==> xor.pos == old(xor.pos)
      ensures o.Pass? ==> forall k, j :: 0 <= k < XorShift1024StarStarPhi.STEPS_PER_BATCH && 0 <= j < LANES ==>
                random[8 * k + j] ==
                XorShift1024StarStarPhi.RingOutput(XorShift1024StarStarPhi.RingIterate(old(xor.State()), k))[j]
      ensures o.Pass? ==> forall m :: FETCH_SIZE <= m < random.Length ==> random[m] == old(random[m])
    {
      o := CheckRandom(random);
      if o.Pass? {
        xor.Xor1024Large(random);
      }
    }

    /**
      * `seedSfc64`: check the seed, then load it and warm up.  The value
      * `initSfc64` returns is dropped, as the Java does.
      */
    method SeedSfc64(seed: array?<bv64>) returns (o: Outcome)
      modifies sfc
      ensures o == SeedVerdictOf(seed, SFC64_SEED_LENGTH)
      ensures o.Fail? ==> unchanged(sfc)
      ensures o.Pass? ==>
                sfc.State() == Sfc64.VecIterate(Sfc64.Loaded(seed[..LANES], old(sfc.counter)), Sfc64.WARMUP_STEPS)
    {
      o := CheckSeed(seed, SFC64_SEED_LENGTH);
      if o.Pass? {
        SeedPasses(seed[..], SFC64_SEED_LENGTH);
        var _ := sfc.InitSfc64(seed);
      }
    }

    /**
      * `seedXor1024`: check the seed, then scatter its 128 words over the
      * ring.  A seed that passes has no zero word, so every ring word is
      * non-zero afterwards and no lane can ever reach the all-zero state.
      */
    method SeedXor1024(seed: array?<bv64>) returns (o: Outcome)
      requires xor.Valid()
      modifies xor.s
      ensures xor.Valid() && o == SeedVerdictOf(seed, XOR1024_SEED_LENGTH)
      ensures o.Fail? ==> unchanged(xor.s)
      ensures o.Pass? ==> forall row, col :: 0 <= row < LANES && 0 <= col < XorShift1024StarStarPhi.SLOTS ==>
                xor.s[col][row] == seed[16 * row + col]
      ensures o.Pass? ==> forall row, col :: 0 <= row < LANES && 0 <= col < XorShift1024StarStarPhi.SLOTS ==>
                xor.s[col][row] != 0
      ensures o.Pass? ==> forall n: nat, j :: 0 <= j < LANES ==>
                XorShift1024StarStarPhi.Live(XorShift1024StarStarPhi.LaneOf(XorShift1024StarStarPhi.RingIterate(xor.State(), n), j))
    {
      o := CheckSeed(seed, XOR1024_SEED_LENGTH);
      if o.Pass? {
        SeedPasses(seed[..], XOR1024_SEED_LENGTH);
        xor.InitXor1024(seed);
        forall n: nat, j | 0 <= j < LANES
          ensures XorShift1024StarStarPhi.Live(XorShift1024StarStarPhi.LaneOf(XorShift1024StarStarPhi.RingIterate(xor.State(), n), j))
        {
          XorShift1024StarStarPhi.RingStaysLive(xor.State(), n, j);
        }
      }
    }
  }
}
