/**
 * src/game/utils.ts: linear interpolation and the seeded one-dimensional
 * gradient noise that shapes the terrain.
 *
 * Numbers are modelled as `real`; the linear-congruential generator works on
 * exact integers (the source computes its product in doubles, which are exact
 * only below 2^53, so bit-level agreement is an idealisation).
 */
module Utils {

  function Abs(x: real): real { if x < 0.0 then -x else x }
  function Min(a: real, b: real): real { if a <= b then a else b }
  function Max(a: real, b: real): real { if a <= b then b else a }

  lemma MulNonNeg(x: real, y: real)
    requires x >= 0.0 && y >= 0.0
    ensures x * y >= 0.0
  {
  }

  // ---------------------------------------------------------------------------
  // lerp
  // ---------------------------------------------------------------------------

  /** Linear interpolation from `a` (at t = 0) to `b` (at t = 1). */
  function Lerp(a: real, b: real, t: real): real
  {
    a + (b - a) * t
  }

  /** The two end points of the interpolation are reached exactly. */
  lemma LerpEndpoints(a: real, b: real)
    ensures Lerp(a, b, 0.0) == a
    ensures Lerp(a, b, 1.0) == b
  {
  }

  /** For a factor in [0, 1] the result lies between the two end points. */
  lemma LerpBetween(a: real, b: real, t: real)
    requires 0.0 <= t <= 1.0
    ensures Min(a, b) <= Lerp(a, b, t) <= Max(a, b)
  {
    if a <= b {
      MulNonNeg(b - a, t);
      MulNonNeg(b - a, 1.0 - t);
    } else {
      MulNonNeg(a - b, t);
      MulNonNeg(a - b, 1.0 - t);
    }
  }

  /** One interpolation step shrinks the distance to `b` by the factor 1 - t. */
  lemma LerpContracts(a: real, b: real, t: real)
    requires 0.0 <= t <= 1.0
    ensures Abs(Lerp(a, b, t) - b) == (1.0 - t) * Abs(a - b)
  {
    assert Lerp(a, b, t) - b == (1.0 - t) * (a - b);
    if a < b {
      MulNonNeg(1.0 - t, b - a);
      assert (1.0 - t) * (a - b) == -((1.0 - t) * (b - a));
    } else {
      MulNonNeg(1.0 - t, a - b);
    }
  }

  /** Interpolating with a convex weight is bounded by the weighted magnitudes. */
  lemma LerpAbsBound(a: real, b: real, t: real)
    requires 0.0 <= t <= 1.0
    ensures Abs(Lerp(a, b, t)) <= (1.0 - t) * Abs(a) + t * Abs(b)
  {
    assert Lerp(a, b, t) == (1.0 - t) * a + t * b;
    MulNonNeg(1.0 - t, Abs(a));
    MulNonNeg(t, Abs(b));
    assert Abs((1.0 - t) * a) == (1.0 - t) * Abs(a) by {
      if a < 0.0 { assert (1.0 - t) * a == -((1.0 - t) * Abs(a)); }
    }
    assert Abs(t * b) == t * Abs(b) by {
      if b < 0.0 { assert t * b == -(t * Abs(b)); }
    }
  }

  // ---------------------------------------------------------------------------
  // seededRandom: a linear-congruential generator
  // ---------------------------------------------------------------------------

  const Modulus: int := 2147483648
  const Multiplier: int := 1103515245
  const Increment: int := 12345

  /** JavaScript's `%` on integers: the remainder has the sign of the dividend. */
  function JsRem(a: int, m: int): (r: int)
    requires m > 0
    ensures a >= 0 ==> 0 <= r < m
    ensures a < 0 ==> -m < r <= 0
  {
    if a >= 0 then a % m else -((-a) % m)
  }

  /** The generator's state transition. */
  function NextState(s: int): int
  {
    JsRem(Multiplier * s + Increment, Modulus)
  }

  /** The value a draw returns for the state it has just produced. */
  function Draw(s: int): real
  {
    s as real / Modulus as real
  }

  /** From a non-negative state the generator stays in [0, 2^31) and draws from [0, 1). */
  lemma DrawInUnitInterval(s: int)
    requires s >= 0
    ensures 0 <= NextState(s) < Modulus
    ensures 0.0 <= Draw(NextState(s)) < 1.0
  {
  }

  /** The closure `seededRandom` returns: a captured state reassigned on every call. */
  class SeededRandom {
    var state: int

    constructor (seed: int)
      ensures state == seed
    {
      state := seed;
    }

    method Next() returns (r: real)
      modifies this
      ensures state == NextState(old(state))
      ensures r == Draw(state)
      ensures old(state) >= 0 ==> 0 <= state < Modulus && 0.0 <= r < 1.0
    {
      state := JsRem(Multiplier * state + Increment, Modulus);
      r := state as real / Modulus as real;
    }
  }

  // ---------------------------------------------------------------------------
  // The permutation table: Fisher-Yates shuffle, then duplication
  // ---------------------------------------------------------------------------

  const TableSize: int := 256

  /** `Math.floor(random() * (i + 1))`, the partner index of position `i`. */
  function SwapIndex(r: real, i: int): int
  {
    (r * (i + 1) as real).Floor
  }

  lemma SwapIndexInRange(r: real, i: int)
    requires 0.0 <= r < 1.0
    requires i >= 0
    ensures 0 <= SwapIndex(r, i) <= i
  {
    var n := (i + 1) as real;
    assert 0.0 <= r * n;
    assert r * n < n by {
      assert (1.0 - r) * n > 0.0;
    }
  }

  /** Exchanges two entries of a sequence. */
  function Swap(s: seq<int>, i: int, j: int): (t: seq<int>)
    requires 0 <= i < |s| && 0 <= j < |s|
    ensures |t| == |s| && t[i] == s[j] && t[j] == s[i]
    ensures forall k :: 0 <= k < |s| && k != i && k != j ==> t[k] == s[k]
  {
    s[i := s[j]][j := s[i]]
  }

  lemma SwapPermutes(s: seq<int>, i: int, j: int)
    requires 0 <= i < |s| && 0 <= j < |s|
    ensures multiset(Swap(s, i, j)) == multiset(s)
  {
    var t := s[i := s[j]];
    assert multiset(t) == multiset(s) - multiset{s[i]} + multiset{s[j]};
    assert multiset(t[j := s[i]]) == multiset(t) - multiset{t[j]} + multiset{s[i]};
  }

  /**
   * The shuffle loop from position `i` down to 1, starting from generator
   * state `state`: each step draws, picks j in [0, i] and swaps p[i], p[j].
   */
  function ShuffleFrom(p: seq<int>, i: int, state: int): (r: seq<int>)
    requires 0 <= i < |p|
    requires state >= 0
    ensures |r| == |p|
    decreases i
  {
    if i <= 0 then p
    else
      var s := NextState(state);
      DrawInUnitInterval(state);
      var j := SwapIndex(Draw(s), i);
      SwapIndexInRange(Draw(s), i);
      ShuffleFrom(Swap(p, i, j), i - 1, s)
  }

  lemma {:induction false} ShuffleFromPermutes(p: seq<int>, i: int, state: int)
    requires 0 <= i < |p|
    requires state >= 0
    ensures multiset(ShuffleFrom(p, i, state)) == multiset(p)
    decreases i
  {
    if i > 0 {
      var s := NextState(state);
      DrawInUnitInterval(state);
      var j := SwapIndex(Draw(s), i);
      SwapIndexInRange(Draw(s), i);
      SwapPermutes(p, i, j);
      ShuffleFromPermutes(Swap(p, i, j), i - 1, s);
    }
  }

  /** The table before shuffling: 0, 1, ..., 255. */
  function Identity(): (r: seq<int>)
    ensures |r| == TableSize
    ensures forall k :: 0 <= k < TableSize ==> r[k] == k
  {
    seq(TableSize, k => k)
  }

  /** The shuffled 256-entry table `p` for a seed. */
  function Shuffled(seed: int): (r: seq<int>)
    requires seed >= 0
    ensures |r| == TableSize
  {
    ShuffleFrom(Identity(), TableSize - 1, seed)
  }

  /** `permutation`: the shuffled table followed by a second copy of itself. */
  function Table(seed: int): seq<int>
    requires seed >= 0
  {
    Shuffled(seed) + Shuffled(seed)
  }

  /** A 512-entry table whose entries are all valid indices of a 256-entry table. */
  ghost predicate TableInRange(t: seq<int>)
  {
    |t| == 2 * TableSize && forall k :: 0 <= k < |t| ==> 0 <= t[k] < TableSize
  }

  /**
   * The shuffled table is a permutation of 0..255, and the full table has 512
   * entries, its second half repeating the first, all in [0, 255].
   */
  lemma TableIsDuplicatedPermutation(seed: int)
    requires seed >= 0
    ensures multiset(Shuffled(seed)) == multiset(Identity())
    ensures |Table(seed)| == 2 * TableSize
    ensures forall k :: 0 <= k < TableSize ==> Table(seed)[k] == Table(seed)[k + TableSize]
    ensures TableInRange(Table(seed))
  {
    var p := Shuffled(seed);
    ShuffleFromPermutes(Identity(), TableSize - 1, seed);
    forall k | 0 <= k < TableSize
      ensures 0 <= p[k] < TableSize
    {
      assert p[k] in multiset(p);
      assert p[k] in multiset(Identity());
      assert p[k] in Identity();
    }
  }

  // ---------------------------------------------------------------------------
  // fade, grad, noise
  // ---------------------------------------------------------------------------

  /** The smootherstep curve 6t^5 - 15t^4 + 10t^3. */
  function Fade(t: real): real
  {
    t * t * t * (t * (t * 6.0 - 15.0) + 10.0)
  }

  /** The one-bit gradient: `x` for an even hash, `-x` for an odd one (`hash & 1`). */
  function Grad(hash: int, x: real): (r: real)
    ensures hash % 2 == 0 ==> r == x
    ensures hash % 2 == 1 ==> r == -x
    ensures Abs(r) == Abs(x)
  {
    if hash % 2 == 0 then x else -x
  }

  lemma FadeEndpoints()
    ensures Fade(0.0) == 0.0 && Fade(1.0) == 1.0 && Fade(0.5) == 0.5
  {
  }

  /**
   * On [0, 1] the fade curve stays in [0, 1], and it lies below 1/2 exactly on
   * the lower half of the interval.
   */
  lemma FadeBounds(t: real)
    requires 0.0 <= t <= 1.0
    ensures 0.0 <= Fade(t) <= 1.0
    ensures t <= 0.5 ==> Fade(t) <= 0.5
    ensures t >= 0.5 ==> Fade(t) >= 0.5
  {
    // Fade(t) = t^3 * q(t) with q(t) = 6(t - 5/4)^2 + 5/8 > 0.
    var q := t * (t * 6.0 - 15.0) + 10.0;
    assert q == 6.0 * (t - 1.25) * (t - 1.25) + 0.625;
    assert q > 0.0;
    MulNonNeg(t, t);
    MulNonNeg(t * t, t);
    assert Fade(t) == (t * t * t) * q;
    assert Fade(t) >= 0.0;
    // 1 - Fade(t) = (1 - t)^3 * (6t^2 + 3t + 1).
    var c := 1.0 - t;
    assert 1.0 - Fade(t) == (c * c * c) * (6.0 * t * t + 3.0 * t + 1.0);
    MulNonNeg(c, c);
    MulNonNeg(c * c, c);
    MulNonNeg(c * c * c, 6.0 * t * t + 3.0 * t + 1.0);
    assert 6.0 * t * t + 3.0 * t + 1.0 > 0.0;
    assert Fade(t) <= 1.0;
    // Fade(t) - 1/2 = s * w(s) with s = t - 1/2 and w(s) = 6(s^2 - 5/12)^2 + 5/6 > 0.
    var s := t - 0.5;
    var w := 6.0 * s * s * s * s - 5.0 * s * s + 1.875;
    assert Fade(t) - 0.5 == s * w;
    assert w == 6.0 * (s * s - 5.0 / 12.0) * (s * s - 5.0 / 12.0) + 5.0 / 6.0;
    assert w > 0.0;
    if t <= 0.5 {
      assert s * w <= 0.0;
    }
    if t >= 0.5 {
      assert s * w >= 0.0;
    }
  }

  /** The change of interpolation weight that the fade curve applies never widens the blend. */
  lemma BlendBound(f: real, u: real)
    requires 0.0 <= f <= 1.0
    requires 0.0 <= u <= 1.0
    requires f <= 0.5 ==> u <= 0.5
    requires f >= 0.5 ==> u >= 0.5
    ensures (1.0 - u) * f + u * (1.0 - f) <= 0.5
  {
    if f <= 0.5 {
      assert (1.0 - u) * f + u * (1.0 - f) == f + u * (1.0 - 2.0 * f);
      assert u * (1.0 - 2.0 * f) <= 0.5 * (1.0 - 2.0 * f);
    } else {
      assert (1.0 - u) * f + u * (1.0 - f) == f - u * (2.0 * f - 1.0);
      assert u * (2.0 * f - 1.0) >= 0.5 * (2.0 * f - 1.0);
    }
  }

  /** `new PerlinNoise(seed)`: the table `p`, shuffled in place, and `permutation`. */
  class PerlinNoise {
    var p: array<int>
    var permutation: seq<int>
    ghost const seed: int

    ghost predicate Valid()
      reads this, p
    {
      seed >= 0 &&
      p.Length == TableSize &&
      p[..] == Shuffled(seed) &&
      permutation == Table(seed) &&
      TableInRange(permutation)
    }

    /**
     * The seeded constructor. Negative seeds are excluded: the generator would
     * then return negative values and the shuffle would read outside `p`.
     */
    constructor (seed: int)
      requires seed >= 0
      ensures Valid()
      ensures this.seed == seed
      ensures fresh(p)
    {
      this.seed := seed;
      var random := new SeededRandom(seed);
      var a := new int[TableSize](k => k);
      assert a[..] == Identity();
      var i := TableSize - 1;
      while i > 0
        invariant 0 <= i < TableSize
        invariant random.state >= 0
        invariant ShuffleFrom(a[..], i, random.state) == Shuffled(seed)
        modifies a, random
      {
        ghost var before := a[..];
        ghost var st := random.state;
        var r := random.Next();
        SwapIndexInRange(r, i);
        var j := SwapIndex(r, i);
        a[i], a[j] := a[j], a[i];
        assert a[..] == Swap(before, i, j);
        i := i - 1;
      }
      p := a;
      permutation := a[..] + a[..];
      TableIsDuplicatedPermutation(seed);
    }

    /** `noise(x)`: 1-D gradient noise, scaled by 2. */
    function Noise(x: real): real
      reads this, p
      requires Valid()
    {
      var X := x.Floor % 256;           // `Math.floor(x) & 255`
      var f := x - x.Floor as real;     // fractional part
      var u := Fade(f);
      var a := permutation[X];
      var b := permutation[X + 1];
      2.0 * Lerp(Grad(permutation[a], f), Grad(permutation[b], f - 1.0), u)
    }
  }

  /** Every table index `noise` uses is in range. */
  lemma NoiseIndicesInRange(n: PerlinNoise, x: real)
    requires n.Valid()
    ensures 0 <= x.Floor % 256 <= 255
    ensures x.Floor % 256 + 1 <= 256
    ensures 0 <= n.permutation[x.Floor % 256] <= 255
    ensures 0 <= n.permutation[x.Floor % 256 + 1] <= 255
  {
  }

  /** The noise vanishes at every integer: the offset is 0, so is the fade and the gradient. */
  lemma NoiseZeroAtIntegers(n: PerlinNoise, k: int)
    requires n.Valid()
    ensures n.Noise(k as real) == 0.0
  {
    assert (k as real).Floor == k;
    var f := k as real - k as real;
    assert f == 0.0;
    assert Fade(f) == 0.0;
  }

  /**
   * The noise lies in [-1, 1], as its documentation says: each gradient is
   * bounded by the distance to its corner and the fade keeps the blend weight
   * on the side of the nearer corner.
   */
  lemma NoiseBounded(n: PerlinNoise, x: real)
    requires n.Valid()
    ensures -1.0 <= n.Noise(x) <= 1.0
  {
    var X := x.Floor % 256;
    var f := x - x.Floor as real;
    var g1 := Grad(n.permutation[n.permutation[X]], f);
    var g2 := Grad(n.permutation[n.permutation[X + 1]], f - 1.0);
    GradBlendBound(g1, g2, f);
    assert n.Noise(x) == 2.0 * Lerp(g1, g2, Fade(f));
  }

  /** The blend of the two corner gradients at offset `f` stays within [-1/2, 1/2]. */
  lemma GradBlendBound(g1: real, g2: real, f: real)
    requires 0.0 <= f < 1.0
    requires Abs(g1) == f && Abs(g2) == Abs(f - 1.0)
    ensures -1.0 <= 2.0 * Lerp(g1, g2, Fade(f)) <= 1.0
  {
    var u := Fade(f);
    FadeBounds(f);
    LerpAbsBound(g1, g2, u);
    BlendBound(f, u);
    assert (1.0 - u) * Abs(g1) + u * Abs(g2) == (1.0 - u) * f + u * (1.0 - f);
  }

  /** Two generators built from the same seed produce the same noise everywhere. */
  lemma SameSeedSameNoise(n1: PerlinNoise, n2: PerlinNoise, x: real)
    requires n1.Valid() && n2.Valid()
    requires n1.seed == n2.seed
    ensures n1.permutation == n2.permutation
    ensures n1.Noise(x) == n2.Noise(x)
  {
  }
}
