/**
 * perlin.hpp: gradient noise over a 256-entry table of random unit vectors, hashed through
 * three random permutations of 0..255, and the turbulence sum of octaves of it.
 *
 * The generator's draws are parameters: the 256 points vec3_random returns for the
 * gradients, and for each permutation the 255 indices random_int returns during the
 * shuffle.
 */
module Noise {
  import opened Outcomes
  import opened Libm
  import opened Vectors

  const Size := 256

  /** The sequence 0, 1, ..., n - 1. */
  function Iota(n: nat): (s: seq<int>)
    ensures |s| == n && forall i :: 0 <= i < n ==> s[i] == i
  {
    seq(n, i => i)
  }

  /** Every value of 0..255 occurs exactly once. */
  ghost predicate IsPermutation(s: seq<int>)
  {
    multiset(s) == multiset(Iota(Size))
  }

  /** Each value below n occurs once in Iota(n), and nothing else occurs. */
  lemma {:induction false} IotaCounts(n: nat, v: int)
    ensures multiset(Iota(n))[v] == if 0 <= v < n then 1 else 0
  {
    if n > 0 {
      IotaCounts(n - 1, v);
      assert Iota(n) == Iota(n - 1) + [n - 1];
      assert multiset(Iota(n)) == multiset(Iota(n - 1)) + multiset{n - 1};
    }
  }

  /** A permutation has 256 entries, each in [0, 255]. */
  lemma PermutationInRange(s: seq<int>)
    requires IsPermutation(s)
    ensures |s| == Size
    ensures forall k :: 0 <= k < |s| ==> 0 <= s[k] < Size
  {
    assert |s| == |multiset(s)| == |multiset(Iota(Size))| == Size;
    forall k | 0 <= k < |s|
      ensures 0 <= s[k] < Size
    {
      assert s[k] in multiset(s);
      IotaCounts(Size, s[k]);
    }
  }

  /** Each value of 0..255 occurs exactly once in a permutation. */
  lemma PermutationCounts(s: seq<int>, v: int)
    requires IsPermutation(s) && 0 <= v < Size
    ensures multiset(s)[v] == 1
  {
    IotaCounts(Size, v);
  }

  /** std::swap of two entries. */
  function Swap(s: seq<int>, i: nat, j: nat): (r: seq<int>)
    requires i < |s| && j < |s|
    ensures multiset(r) == multiset(s)
    ensures |r| == |s| && r[i] == s[j] && r[j] == s[i]
    ensures forall k :: 0 <= k < |s| && k != i && k != j ==> r[k] == s[k]
  {
    s[i := s[j]][j := s[i]]
  }

  /** The draws random_int returns, one per shuffle step, each an index of the array. */
  predicate DrawsInRange(draws: seq<int>)
  {
    |draws| == Size - 1 && forall k :: 0 <= k < |draws| ==> 0 <= draws[k] < Size
  }

  /**
   * The shuffle of make_permutation from position i down to 1: position i is swapped with
   * the index drawn at that step, draws[i - 1]. Every step is a swap, so the shuffle keeps
   * the entries.
   */
  function Shuffle(s: seq<int>, draws: seq<int>, i: nat): (r: seq<int>)
    requires |s| == Size && i < Size && DrawsInRange(draws)
    decreases i
    ensures |r| == Size
    ensures multiset(r) == multiset(s)
  {
    if i == 0 then s else Shuffle(Swap(s, i, draws[i - 1]), draws, i - 1)
  }

  /** One step of the shuffle: swap position i with its draw, then shuffle below i; none at 0. */
  lemma ShuffleStep(s: seq<int>, draws: seq<int>, i: nat)
    requires |s| == Size && i < Size && DrawsInRange(draws)
    ensures i == 0 ==> Shuffle(s, draws, i) == s
    ensures 0 < i ==> Shuffle(s, draws, i) == Shuffle(Swap(s, i, draws[i - 1]), draws, i - 1)
  {
  }

  /** make_permutation yields a permutation of 0..255 whatever the draws. */
  lemma ShuffleIsPermutation(draws: seq<int>)
    requires DrawsInRange(draws)
    ensures IsPermutation(Shuffle(Iota(Size), draws, Size - 1))
  {
  }

  /**
   * make_permutation: fills the array with 0..255, then swaps each position from 255 down
   * to 1 with the drawn index.
   */
  method MakePermutation(draws: seq<int>) returns (permutation: array<int>)
    requires DrawsInRange(draws)
    ensures fresh(permutation)
    ensures permutation[..] == Shuffle(Iota(Size), draws, Size - 1)
    ensures IsPermutation(permutation[..])
  {
    hide Shuffle;
    permutation := new int[Size];
    for i := 0 to Size
      invariant forall k :: 0 <= k < i ==> permutation[k] == k
    {
      permutation[i] := i;
    }
    assert permutation[..] == Iota(Size);
    var i := Size - 1;
    while i > 0
      invariant 0 <= i < Size && permutation.Length == Size
      invariant Shuffle(permutation[..], draws, i) == Shuffle(Iota(Size), draws, Size - 1)
    {
      var j := draws[i - 1];
      ghost var before := permutation[..];
      permutation[i], permutation[j] := permutation[j], permutation[i];
      assert permutation[..] == Swap(before, i, j);
      ShuffleStep(before, draws, i);
      i := i - 1;
    }
    ShuffleStep(permutation[..], draws, 0);
    ShuffleIsPermutation(draws);
  }

  /** (n) & 0xFF on a two's-complement int: the residue of n modulo 256, negatives included. */
  function Mask(n: int): (r: int)
    ensures 0 <= r < Size
    ensures (n - r) % Size == 0
  {
    n % Size
  }

  /** Bitwise exclusive or of two naturals, one binary digit at a time from the lowest. */
  function Xor(a: nat, b: nat): nat
    decreases a + b
  {
    if a == 0 then b
    else if b == 0 then a
    else 2 * Xor(a / 2, b / 2) + (a + b) % 2
  }

  function Pow2(n: nat): nat
  {
    if n == 0 then 1 else 2 * Pow2(n - 1)
  }

  /** XOR never sets a bit above the highest bit of its operands. */
  lemma {:induction false} XorBelow(a: nat, b: nat, n: nat)
    requires a < Pow2(n) && b < Pow2(n)
    ensures Xor(a, b) < Pow2(n)
    decreases n
  {
    if a != 0 && b != 0 {
      XorBelow(a / 2, b / 2, n - 1);
    }
  }

  /** The XOR of three lookups, each a byte, indexes the 256-entry gradient table. */
  function Xor3(a: int, b: int, c: int): (r: int)
    requires 0 <= a < Size && 0 <= b < Size && 0 <= c < Size
    ensures 0 <= r < Size
  {
    assert Pow2(8) == Size;
    XorBelow(a, b, 8);
    XorBelow(Xor(a, b), c, 8);
    Xor(Xor(a, b), c)
  }

  /** p - floor(p): the fractional offset within the lattice cell. */
  function Fraction(x: real): (f: real)
    ensures 0.0 <= f < 1.0
    ensures x == x.Floor as real + f
  {
    x - x.Floor as real
  }

  /** The smoothstep weight t^2 (3 - 2t). */
  function Smooth(t: real): real
  {
    t * t * (3.0 - 2.0 * t)
  }

  /** The smoothstep maps [0, 1] into [0, 1]. */
  lemma SmoothInUnit(t: real)
    requires 0.0 <= t <= 1.0
    ensures 0.0 <= Smooth(t) <= 1.0
  {
    var sq := t * t;
    ProductBounds(t, t);
    assert 0.0 <= sq <= 1.0;
    assert Smooth(t) == sq * (3.0 - 2.0 * t);
    assert 0.0 <= sq * (3.0 - 2.0 * t) by {
      ProductBounds(sq, 1.0);
      NonNegativeProduct(sq, 3.0 - 2.0 * t);
    }
    assert 1.0 - Smooth(t) == (1.0 - t) * (1.0 - t) * (1.0 + 2.0 * t);
    NonNegativeProduct((1.0 - t) * (1.0 - t), 1.0 + 2.0 * t);
  }

  lemma NonNegativeProduct(a: real, b: real)
    requires 0.0 <= a && 0.0 <= b
    ensures 0.0 <= a * b
  {
  }

  /** The weight of corner index i along one axis: s for the far corner, 1 - s for the near one. */
  function Weight(i: int, s: real): real
  {
    if i == 1 then s else 1.0 - s
  }

  /** For the two corner indices the weight is the blend i * s + (1 - i) * (1 - s). */
  lemma WeightBlend(i: int, s: real)
    requires 0 <= i < 2
    ensures Weight(i, s) == i as real * s + (1 - i) as real * (1.0 - s)
  {
  }

  /** The cells of c before index n, in the order 4i + 2j + k, hold the first n corners. */
  ghost predicate Gathered(c: array3<Vec3>, corners: seq<Vec3>, n: int)
    requires c.Length0 == 2 && c.Length1 == 2 && c.Length2 == 2 && |corners| == 8
    reads c
  {
    forall a, b, d :: 0 <= a < 2 && 0 <= b < 2 && 0 <= d < 2 && 4 * a + 2 * b + d < n ==> c[a, b, d] == corners[4 * a + 2 * b + d]
  }

  /** Gathering the cell (a, b, d) at index n extends the gathered prefix by one. */
  lemma GatheredStep(c: array3<Vec3>, corners: seq<Vec3>, n: int, a: int, b: int, d: int)
    requires c.Length0 == 2 && c.Length1 == 2 && c.Length2 == 2 && |corners| == 8
    requires 0 <= a < 2 && 0 <= b < 2 && 0 <= d < 2 && n == 4 * a + 2 * b + d
    requires Gathered(c, corners, n) && c[a, b, d] == corners[n]
    ensures Gathered(c, corners, n + 1)
  {
  }

  /** Once all eight cells are gathered, the cells are the corners. */
  lemma GatheredAll(c: array3<Vec3>, corners: seq<Vec3>)
    requires c.Length0 == 2 && c.Length1 == 2 && c.Length2 == 2 && |corners| == 8
    requires Gathered(c, corners, 8)
    ensures Cells(c) == corners
  {
    assert forall n :: 0 <= n < 8 ==> Cells(c)[n] == corners[n] by {
      forall n | 0 <= n < 8
        ensures Cells(c)[n] == corners[n]
      {
        assert c[n / 4, n / 2 % 2, n % 2] == corners[4 * (n / 4) + 2 * (n / 2 % 2) + n % 2];
      }
    }
  }

  /** The eight cells c[i][j][k] in the order the loops visit them, index 4i + 2j + k. */
  function Cells(c: array3<Vec3>): (cells: seq<Vec3>)
    requires c.Length0 == 2 && c.Length1 == 2 && c.Length2 == 2
    reads c
    ensures |cells| == 8
    ensures forall i, j, k :: 0 <= i < 2 && 0 <= j < 2 && 0 <= k < 2 ==> cells[4 * i + 2 * j + k] == c[i, j, k]
  {
    [c[0, 0, 0], c[0, 0, 1], c[0, 1, 0], c[0, 1, 1], c[1, 0, 0], c[1, 0, 1], c[1, 1, 0], c[1, 1, 1]]
  }

  /** The smoothstep of each fractional offset. */
  function Smoothed(f: Vec3): Vec3
  {
    Vec3(Smooth(f.x), Smooth(f.y), Smooth(f.z))
  }

  /**
   * One term of trilinear_interpolation, for fractional offsets f smoothed to s: the corner
   * weights times dot(c[i][j][k], f - (i, j, k)).
   */
  function Term(cells: seq<Vec3>, i: int, j: int, k: int, f: Vec3, s: Vec3): real
    requires |cells| == 8 && 0 <= i < 2 && 0 <= j < 2 && 0 <= k < 2
  {
    Contribution(Weight(i, s.x), Weight(j, s.y), Weight(k, s.z), cells[4 * i + 2 * j + k],
                 Vec3(f.x - i as real, f.y - j as real, f.z - k as real))
  }

  /** The three axis weights times the dot product of the corner's gradient and offset. */
  function Contribution(wi: real, wj: real, wk: real, gradient: Vec3, offset: Vec3): real
  {
    wi * wj * wk * Dot(gradient, offset)
  }

  /** The sum of the terms with the first two indices fixed and k below n. */
  function SumK(cells: seq<Vec3>, i: int, j: int, n: nat, f: Vec3, s: Vec3): real
    requires |cells| == 8 && 0 <= i < 2 && 0 <= j < 2 && n <= 2
  {
    if n == 0 then 0.0 else SumK(cells, i, j, n - 1, f, s) + Term(cells, i, j, n - 1, f, s)
  }

  function SumJ(cells: seq<Vec3>, i: int, n: nat, f: Vec3, s: Vec3): real
    requires |cells| == 8 && 0 <= i < 2 && n <= 2
  {
    if n == 0 then 0.0 else SumJ(cells, i, n - 1, f, s) + SumK(cells, i, n - 1, 2, f, s)
  }

  function SumI(cells: seq<Vec3>, n: nat, f: Vec3, s: Vec3): real
    requires |cells| == 8 && n <= 2
  {
    if n == 0 then 0.0 else SumI(cells, n - 1, f, s) + SumJ(cells, n - 1, 2, f, s)
  }

  /** The interpolated noise value over the cell's eight gradients at fractional offsets f. */
  function Interpolation(cells: seq<Vec3>, f: Vec3): real
    requires |cells| == 8
  {
    SumI(cells, 2, f, Smoothed(f))
  }

  /** Gradient noise vanishes at a lattice point: only the origin corner has weight there. */
  lemma InterpolationAtCorner(cells: seq<Vec3>)
    requires |cells| == 8
    ensures Interpolation(cells, Zero) == 0.0
  {
    var s := Smoothed(Zero);
    assert s == Zero;
    forall i, j, k | 0 <= i < 2 && 0 <= j < 2 && 0 <= k < 2
      ensures Term(cells, i, j, k, Zero, s) == 0.0
    {
      TermAtOrigin(cells, i, j, k);
    }
    forall i, j | 0 <= i < 2 && 0 <= j < 2
      ensures SumK(cells, i, j, 2, Zero, s) == 0.0
    {
      assert SumK(cells, i, j, 1, Zero, s) == 0.0;
    }
    forall i | 0 <= i < 2
      ensures SumJ(cells, i, 2, Zero, s) == 0.0
    {
      assert SumJ(cells, i, 1, Zero, s) == 0.0;
    }
    assert SumI(cells, 1, Zero, s) == 0.0;
  }

  /**
   * At the cell's origin corner every term vanishes: the offset of corner 0 is zero, and
   * every other corner has a zero weight.
   */
  lemma TermAtOrigin(cells: seq<Vec3>, i: int, j: int, k: int)
    requires |cells| == 8 && 0 <= i < 2 && 0 <= j < 2 && 0 <= k < 2
    ensures Term(cells, i, j, k, Zero, Zero) == 0.0
  {
    var a, b, c := Weight(i, 0.0), Weight(j, 0.0), Weight(k, 0.0);
    var d := Dot(cells[4 * i + 2 * j + k], Vec3(0.0 - i as real, 0.0 - j as real, 0.0 - k as real));
    assert Term(cells, i, j, k, Zero, Zero) == Contribution(a, b, c, cells[4 * i + 2 * j + k],
                                                            Vec3(0.0 - i as real, 0.0 - j as real, 0.0 - k as real));
    if i == 0 && j == 0 && k == 0 {
      assert d == 0.0 by {
        assert Vec3(0.0 - i as real, 0.0 - j as real, 0.0 - k as real) == Vec3(0.0, 0.0, 0.0);
      }
    } else {
      assert a == 0.0 || b == 0.0 || c == 0.0;
    }
    ZeroFactor(a, b, c, d);
  }

  /** A product of four factors one of which is zero is zero. */
  lemma ZeroFactor(a: real, b: real, c: real, d: real)
    requires a == 0.0 || b == 0.0 || c == 0.0 || d == 0.0
    ensures a * b * c * d == 0.0
  {
  }

  /**
   * trilinear_interpolation: the three nested loops add up the eight terms in the order
   * i, j, k.
   */
  method TrilinearInterpolation(c: array3<Vec3>, u: real, v: real, w: real) returns (accum: real)
    requires c.Length0 == 2 && c.Length1 == 2 && c.Length2 == 2
    ensures accum == Interpolation(Cells(c), Vec3(u, v, w))
  {
    ghost var cells, f := Cells(c), Vec3(u, v, w);
    var uu, vv, ww := Smooth(u), Smooth(v), Smooth(w);
    ghost var s := Vec3(uu, vv, ww);
    accum := 0.0;
    for i := 0 to 2
      invariant accum == SumI(cells, i, f, s)
    {
      for j := 0 to 2
        invariant accum == SumI(cells, i, f, s) + SumJ(cells, i, j, f, s)
      {
        for k := 0 to 2
          invariant accum == SumI(cells, i, f, s) + SumJ(cells, i, j, f, s) + SumK(cells, i, j, k, f, s)
        {
          var weightV := Vec3(u - i as real, v - j as real, w - k as real);
          accum := accum + Contribution(Weight(i, uu), Weight(j, vv), Weight(k, ww), c[i, j, k], weightV);
        }
      }
    }
  }

  /** The turbulence sum: each value at the given weight, the next ones at half of it. */
  function WeightedSum(values: seq<real>, weight: real): real
  {
    if |values| == 0 then 0.0 else weight * values[0] + WeightedSum(values[1..], weight * 0.5)
  }

  /** The weighted sum is linear in the starting weight. */
  lemma {:induction false} WeightedSumScale(values: seq<real>, weight: real, factor: real)
    ensures WeightedSum(values, factor * weight) == factor * WeightedSum(values, weight)
  {
    if |values| > 0 {
      var half := weight * 0.5;
      var scaled := factor * weight;
      WeightedSumScale(values[1..], half, factor);
      var b := WeightedSum(values[1..], half);
      assert WeightedSum(values[1..], factor * half) == factor * b;
      SameWeight(values[1..], scaled * 0.5, factor * half);
      assert WeightedSum(values, scaled) == scaled * values[0] + factor * b;
      assert WeightedSum(values, weight) == weight * values[0] + b;
      Distribute(factor, weight, values[0], b);
    }
  }

  /** One step of the turbulence loop: the octave's value moves from the rest into the sum. */
  lemma AccumulateOctave(values: seq<real>, i: nat, accum: real, weight: real, noise: real)
    requires i < |values| && values[i] == noise
    requires accum + WeightedSum(values[i..], weight) == WeightedSum(values, 1.0)
    ensures accum + weight * noise + WeightedSum(values[i + 1..], weight * 0.5) == WeightedSum(values, 1.0)
  {
    assert values[i..][1..] == values[i + 1..];
  }

  /** The first value at full weight, the rest at half of it. */
  lemma WeightedSumHead(values: seq<real>)
    requires |values| > 0
    ensures WeightedSum(values, 1.0) == values[0] + 0.5 * WeightedSum(values[1..], 1.0)
  {
    WeightedSumScale(values[1..], 1.0, 0.5);
    SameWeight(values[1..], 1.0 * 0.5, 0.5 * 1.0);
  }

  lemma SameWeight(values: seq<real>, w1: real, w2: real)
    requires w1 == w2
    ensures WeightedSum(values, w1) == WeightedSum(values, w2)
  {
  }

  lemma Distribute(f: real, w: real, a: real, b: real)
    ensures f * w * a + f * b == f * (w * a + b)
  {
  }

  /** The contents of the generator's four tables. */
  datatype Tables = Tables(random: seq<Vec3>, xPermutation: seq<int>, yPermutation: seq<int>, zPermutation: seq<int>)

  /** 256 gradients and three permutations of 0..255. */
  ghost predicate ValidTables(t: Tables)
  {
    && |t.random| == Size && |t.xPermutation| == Size && |t.yPermutation| == Size && |t.zPermutation| == Size
    && IsPermutation(t.xPermutation) && IsPermutation(t.yPermutation) && IsPermutation(t.zPermutation)
  }

  /**
   * The table index of the corner (i + di, j + dj, k + dk) of the cell of p: the lattice
   * coordinates are masked to 0..255, looked up in the three permutations and XORed.
   */
  function Hash(t: Tables, p: Vec3, di: int, dj: int, dk: int): (h: int)
    requires ValidTables(t)
    ensures 0 <= h < |t.random|
  {
    PermutationInRange(t.xPermutation);
    PermutationInRange(t.yPermutation);
    PermutationInRange(t.zPermutation);
    Xor3(t.xPermutation[Mask(p.x.Floor + di)], t.yPermutation[Mask(p.y.Floor + dj)],
         t.zPermutation[Mask(p.z.Floor + dk)])
  }

  /** The gradient at corner (di, dj, dk) of the cell of p. */
  function Corner(t: Tables, p: Vec3, di: int, dj: int, dk: int): Vec3
    requires ValidTables(t)
  {
    t.random[Hash(t, p, di, dj, dk)]
  }

  /** The gradients at the eight corners of the cell of p, index 4di + 2dj + dk. */
  function Corners(t: Tables, p: Vec3): (cells: seq<Vec3>)
    requires ValidTables(t)
    ensures |cells| == 8
  {
    seq(8, n requires 0 <= n < 8 => Corner(t, p, n / 4, n / 2 % 2, n % 2))
  }

  /**
   * The corner (di, dj, dk) sits at index 4di + 2dj + dk of the corner list, and its gradient
   * is the table entry at the XOR of the three permutation entries x, y, z of its lattice
   * coordinates.
   */
  lemma CornerLookup(t: Tables, p: Vec3, di: int, dj: int, dk: int, x: int, y: int, z: int)
    requires ValidTables(t) && 0 <= di < 2 && 0 <= dj < 2 && 0 <= dk < 2
    requires x == t.xPermutation[Mask(p.x.Floor + di)] && y == t.yPermutation[Mask(p.y.Floor + dj)]
    requires z == t.zPermutation[Mask(p.z.Floor + dk)]
    ensures 0 <= x < Size && 0 <= y < Size && 0 <= z < Size
    ensures Corners(t, p)[4 * di + 2 * dj + dk] == t.random[Xor3(x, y, z)]
  {
    PermutationInRange(t.xPermutation);
    PermutationInRange(t.yPermutation);
    PermutationInRange(t.zPermutation);
  }

  /** The noise value at p: the interpolation at p's position in its cell, 0 at the cell's origin. */
  function Noise(t: Tables, p: Vec3): (n: real)
    requires ValidTables(t)
    ensures p.x == p.x.Floor as real && p.y == p.y.Floor as real && p.z == p.z.Floor as real ==> n == 0.0
  {
    InterpolationAtCorner(Corners(t, p));
    Interpolation(Corners(t, p), Vec3(Fraction(p.x), Fraction(p.y), Fraction(p.z)))
  }

  /** The noise at p, 2p, 4p, ...: the values of n octaves. */
  function Octaves(t: Tables, p: Vec3, n: int): (values: seq<real>)
    requires ValidTables(t)
    ensures |values| == if n <= 0 then 0 else n
    decreases n
  {
    if n <= 0 then [] else [Noise(t, p)] + Octaves(t, Scale(2.0, p), n - 1)
  }

  /**
   * Turbulence is self-similar: the sum of n + 1 octaves at p is the noise at p plus half
   * the sum of n octaves at 2p.
   */
  lemma SelfSimilar(t: Tables, p: Vec3, n: nat)
    requires ValidTables(t)
    ensures WeightedSum(Octaves(t, p, n + 1), 1.0) == Noise(t, p) + 0.5 * WeightedSum(Octaves(t, Scale(2.0, p), n), 1.0)
  {
    var values := Octaves(t, p, n + 1);
    assert values[0] == Noise(t, p) && values[1..] == Octaves(t, Scale(2.0, p), n);
    WeightedSumHead(values);
  }

  /**
   * One round of turbulence: the next octave is the noise at the current point q, the rest
   * are the octaves of 2q, and the weighted noise moves from the remainder into the sum.
   */
  lemma OctaveStep(t: Tables, values: seq<real>, depth: int, i: int, q: Vec3, accum: real, weight: real,
                   noise: real)
    requires ValidTables(t) && 0 <= i < depth && |values| == depth
    requires Octaves(t, q, depth - i) == values[i..] && noise == Noise(t, q)
    requires accum + WeightedSum(values[i..], weight) == WeightedSum(values, 1.0)
    ensures Octaves(t, Scale(2.0, q), depth - (i + 1)) == values[i + 1..]
    ensures accum + weight * noise + WeightedSum(values[i + 1..], weight * 0.5) == WeightedSum(values, 1.0)
  {
    assert values[i..][1..] == values[i + 1..];
    AccumulateOctave(values, i, accum, weight, noise);
  }

  /** The noise generator: the gradient table and the three permutations. */
  class Perlin {
    const random: array<Vec3>
    const xPermutation: array<int>
    const yPermutation: array<int>
    const zPermutation: array<int>

    /** The current contents of the four arrays. */
    ghost function Contents(): Tables
      reads random, xPermutation, yPermutation, zPermutation
    {
      Tables(random[..], xPermutation[..], yPermutation[..], zPermutation[..])
    }

    ghost predicate Valid()
      reads random, xPermutation, yPermutation, zPermutation
    {
      ValidTables(Contents())
    }

    /** Takes the filled gradient table and the three shuffled permutations. */
    constructor (random: array<Vec3>, xPermutation: array<int>, yPermutation: array<int>, zPermutation: array<int>)
      ensures this.random == random && this.xPermutation == xPermutation
      ensures this.yPermutation == yPermutation && this.zPermutation == zPermutation
    {
      this.random := random;
      this.xPermutation := xPermutation;
      this.yPermutation := yPermutation;
      this.zPermutation := zPermutation;
    }

    /**
     * The first half of at: the gradients of the eight corners of the cell of p, looked up
     * through the masked lattice hashes.
     */
    method GatherCorners(p: Vec3) returns (c: array3<Vec3>)
      requires Valid()
      ensures fresh(c) && c.Length0 == 2 && c.Length1 == 2 && c.Length2 == 2
      ensures Cells(c) == Corners(Contents(), p)
    {
      ghost var t := Contents();
      PermutationInRange(t.xPermutation);
      PermutationInRange(t.yPermutation);
      PermutationInRange(t.zPermutation);
      var i, j, k := p.x.Floor, p.y.Floor, p.z.Floor;
      c := new Vec3[2, 2, 2];
      ghost var corners := Corners(t, p);
      for di := 0 to 2
        invariant Gathered(c, corners, 4 * di)
      {
        for dj := 0 to 2
          invariant Gathered(c, corners, 4 * di + 2 * dj)
        {
          for dk := 0 to 2
            invariant Gathered(c, corners, 4 * di + 2 * dj + dk)
          {
            CornerLookup(t, p, di, dj, dk, xPermutation[Mask(i + di)], yPermutation[Mask(j + dj)], zPermutation[Mask(k + dk)]);
            var h := Xor3(xPermutation[Mask(i + di)], yPermutation[Mask(j + dj)], zPermutation[Mask(k + dk)]);
            c[di, dj, dk] := random[h];
            GatheredStep(c, corners, 4 * di + 2 * dj + dk, di, dj, dk);
          }
        }
      }
      GatheredAll(c, corners);
    }

    /**
     * at: gathers the gradients of the cell's eight corners and interpolates them at the
     * fractional part of p.
     */
    method At(p: Vec3) returns (value: real)
      requires Valid()
      ensures value == Noise(Contents(), p)
    {
      var c := GatherCorners(p);
      var u, v, w := p.x - p.x.Floor as real, p.y - p.y.Floor as real, p.z - p.z.Floor as real;
      value := TrilinearInterpolation(c, u, v, w);
    }

    /**
     * turbulence: adds weight * at(temp_p) for each octave, halving the weight and doubling
     * the point; the magnitude of the sum, so never negative, and 0 without octaves.
     */
    method Turbulence(p: Vec3, depth: int := 7) returns (r: real)
      requires Valid()
      ensures r == Abs(WeightedSum(Octaves(Contents(), p, depth), 1.0))
      ensures 0.0 <= r
      ensures depth <= 0 ==> r == 0.0
    {
      hide Noise, Octaves;
      ghost var t := Contents();
      ghost var values := Octaves(t, p, depth);
      var accum := 0.0;
      var tempP := p;
      var weight := 1.0;
      var i := 0;
      while i < depth
        invariant 0 <= i <= |values|
        invariant Contents() == t
        invariant Octaves(t, tempP, depth - i) == values[i..]
        invariant accum + WeightedSum(values[i..], weight) == WeightedSum(values, 1.0)
        decreases depth - i
      {
        var noise := At(tempP);
        OctaveStep(t, values, depth, i, tempP, accum, weight, noise);
        accum := accum + weight * noise;
        weight := weight * 0.5;
        tempP := Scale(2.0, tempP);
        i := i + 1;
      }
      return Abs(accum);
    }
  }

  /** Each gradient is the unit vector of the sample at the same index. */
  ghost predicate Normalized(samples: seq<Vec3>, gradients: seq<Vec3>)
  {
    |gradients| == |samples| && forall m :: 0 <= m < |samples| ==> UnitVector(samples[m]) == Ok(gradients[m])
  }

  /**
   * The first loop of the constructor perlin(): the unit vector of each sampled point.
   * unit_vector throws on a zero sample, which ends the construction.
   */
  method FillGradients(samples: seq<Vec3>) returns (r: Result<array<Vec3>>)
    requires |samples| == Size
    ensures r.Err? <==> exists k :: 0 <= k < Size && UnitVector(samples[k]).Err?
    ensures r.Err? ==> r.error == NullVector
    ensures r.Ok? ==> fresh(r.value) && Normalized(samples, r.value[..])
  {
    var random := new Vec3[Size];
    for k := 0 to Size
      invariant Normalized(samples[..k], random[..k])
    {
      var gradient := UnitVector(samples[k]);
      if gradient.Err? {
        return Err(gradient.error);
      }
      random[k] := gradient.value;
      assert samples[..k + 1] == samples[..k] + [samples[k]];
      assert random[..k + 1] == random[..k] + [gradient.value];
    }
    assert samples[..Size] == samples && random[..Size] == random[..];
    return Ok(random);
  }

  /**
   * The constructor perlin(): the gradient table, then the three permutations. It ends with
   * unit_vector's error when a sample is zero.
   */
  method NewPerlin(samples: seq<Vec3>, xDraws: seq<int>, yDraws: seq<int>, zDraws: seq<int>)
    returns (r: Result<Perlin>)
    requires |samples| == Size && DrawsInRange(xDraws) && DrawsInRange(yDraws) && DrawsInRange(zDraws)
    ensures r.Err? <==> exists k :: 0 <= k < Size && UnitVector(samples[k]).Err?
    ensures r.Err? ==> r.error == NullVector
    ensures r.Ok? ==> fresh(r.value) && fresh(r.value.random) && r.value.Valid()
    ensures r.Ok? ==> Normalized(samples, r.value.random[..])
    ensures r.Ok? ==> r.value.xPermutation[..] == Shuffle(Iota(Size), xDraws, Size - 1)
    ensures r.Ok? ==> r.value.yPermutation[..] == Shuffle(Iota(Size), yDraws, Size - 1)
    ensures r.Ok? ==> r.value.zPermutation[..] == Shuffle(Iota(Size), zDraws, Size - 1)
  {
    var filled := FillGradients(samples);
    if filled.Err? {
      return Err(filled.error);
    }
    var random := filled.value;
    ghost var gradients := random[..];
    var x := MakePermutation(xDraws);
    assert random[..] == gradients;
    var y := MakePermutation(yDraws);
    assert random[..] == gradients;
    var z := MakePermutation(zDraws);
    assert random[..] == gradients;
    var perlin := new Perlin(random, x, y, z);
    assert perlin.random[..] == gradients;
    return Ok(perlin);
  }
}
