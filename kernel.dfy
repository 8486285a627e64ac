/** `InitializeKernel`: the kernel offset table over the hypercube [-r, r]^D, its
    raw radial weights, their total, and the normalisation pass. */
module Kernels {
  import opened Vectors
  import opened Sequences
  import opened Sums
  import opened Odometer
  import Engine

  /** `i * i + j * j + k * k (+ l * l)`: the squared length of an offset. */
  function SquaredNorm(o: Pos): (n: int)
    ensures n >= 0
  {
    if o == [] then 0 else SquaredNorm(o[..|o| - 1]) + o[|o| - 1] * o[|o| - 1]
  }

  lemma {:induction false} SquaredNormNeg(o: Pos)
    ensures SquaredNorm(Neg(o)) == SquaredNorm(o)
    decreases |o|
  {
    if o != [] {
      var k := |o| - 1;
      assert Neg(o)[..k] == Neg(o[..k]);
      SquaredNormNeg(o[..k]);
    }
  }

  /** The radial profiles of the generators, with `Math.Exp` and `Math.Sqrt` given
      as parameters.
      - `Shifted` (Generator3D.cs): `exp(-(r^2 - r0Squared) / (2 kernelSigmaSquared))`.
      - `Ring` (the other three): `exp(-(sqrt(r^2) - r0)^2 / (2 kernelSigma^2))`. */
  datatype Profile =
    | Shifted(exp: real -> real, r0Squared: real, kernelSigmaSquared: real)
    | Ring(exp: real -> real, sqrt: real -> real, r0: real, kernelSigma: real)

  /** The denominators are not zero (a zero sigma gives NaN weights in C#). */
  predicate ProfileOk(pr: Profile)
  {
    match pr
    case Shifted(_, _, kernelSigmaSquared) => kernelSigmaSquared != 0.0
    case Ring(_, _, _, kernelSigma) => kernelSigma != 0.0
  }

  /** The raw weight `value` of offset `o`. */
  function RawWeight(pr: Profile, o: Pos): real
    requires ProfileOk(pr)
  {
    Radial(pr, SquaredNorm(o) as real)
  }

  /** The weight at squared distance `rSquared`. */
  function Radial(pr: Profile, rSquared: real): real
    requires ProfileOk(pr)
  {
    match pr
    case Shifted(exp, r0Squared, kernelSigmaSquared) =>
      exp(-(rSquared - r0Squared) / (2.0 * kernelSigmaSquared))
    case Ring(exp, sqrt, r0, kernelSigma) =>
      var r := sqrt(rSquared);
      exp(-((r - r0) * (r - r0)) / (2.0 * (kernelSigma * kernelSigma)))
  }

  /** A raw weight depends on the offset only through its length, so an offset
      and its mirror image weigh the same. */
  lemma RawWeightNeg(pr: Profile, o: Pos)
    requires ProfileOk(pr)
    ensures RawWeight(pr, Neg(o)) == RawWeight(pr, o)
  {
    SquaredNormNeg(o);
  }

  /** `kernelValueList`: the raw weight of every listed offset. */
  function RawWeights(pr: Profile, offsets: seq<Pos>): (w: seq<real>)
    requires ProfileOk(pr)
    ensures |w| == |offsets|
    ensures forall n :: 0 <= n < |offsets| ==> w[n] == RawWeight(pr, offsets[n])
  {
    seq(|offsets|, n requires 0 <= n < |offsets| => RawWeight(pr, offsets[n]))
  }

  lemma RawWeightsConcat(pr: Profile, a: seq<Pos>, b: seq<Pos>)
    requires ProfileOk(pr)
    ensures RawWeights(pr, a + b) == RawWeights(pr, a) + RawWeights(pr, b)
  {
    assert forall n :: 0 <= n < |a + b| ==> RawWeights(pr, a + b)[n] == (RawWeights(pr, a) + RawWeights(pr, b))[n];
  }

  /** With a positive exponential every raw weight is positive, so the total
      `sum` is positive exactly when the kernel is not empty. */
  lemma RawSumPositive(pr: Profile, offsets: seq<Pos>)
    requires ProfileOk(pr) && Engine.ExpOk(pr.exp)
    ensures offsets != [] <==> Sum(RawWeights(pr, offsets)) > 0.0
    ensures offsets == [] ==> Sum(RawWeights(pr, offsets)) == 0.0
  {
    SumPositive(RawWeights(pr, offsets));
  }

  // ---------------------------------------------------------------------------
  // The counting loops

  /** The offsets the loop at depth |prefix| still produces once its counter
      stands at `c`: the rest of a row of the odometer over [-r, r]. */
  function Remaining(prefix: Pos, c: int, r: int, d: nat): seq<Pos>
  {
    Row(prefix, c, r + 1, -r, r + 1, d)
  }

  /** The offsets one full run of the loop at depth |prefix| produces, `d` loops
      nested inside it. */
  function Block(prefix: Pos, r: int, d: nat): seq<Pos>
  {
    Remaining(prefix, -r, r, d)
  }

  /** What one pass of the loop body at counter value `c` produces: the offset
      itself at the innermost depth, a full run of the inner loops otherwise. */
  function Head(prefix: Pos, c: int, r: int, d: nat): seq<Pos>
  {
    if d == 0 then [prefix + [c]] else Block(prefix + [c], r, d - 1)
  }

  /** Taking one counter value off the front of what remains. */
  lemma RemainingStep(prefix: Pos, c: int, r: int, d: nat, done: seq<Pos>)
    requires c <= r
    requires done + Remaining(prefix, c, r, d) == Block(prefix, r, d)
    ensures (done + Head(prefix, c, r, d)) + Remaining(prefix, c + 1, r, d) == Block(prefix, r, d)
  {
    assert Remaining(prefix, c, r, d) == Head(prefix, c, r, d) + Remaining(prefix, c + 1, r, d);
  }

  /** The lists and the total after the offsets `done` have been appended. */
  ghost predicate Listed(pr: Profile, kernelOffsets: seq<Pos>, kernelValueList: seq<real>, sum: real,
                         done: seq<Pos>, offsets: seq<Pos>, values: seq<real>, total: real)
    requires ProfileOk(pr)
  {
    && offsets == kernelOffsets + done
    && values == kernelValueList + RawWeights(pr, done)
    && total == sum + Sum(RawWeights(pr, done))
  }

  lemma ListedAppend(pr: Profile, kernelOffsets: seq<Pos>, kernelValueList: seq<real>, sum: real,
                     done: seq<Pos>, offsets: seq<Pos>, values: seq<real>, total: real,
                     head: seq<Pos>, offsets': seq<Pos>, values': seq<real>, total': real)
    requires ProfileOk(pr)
    requires Listed(pr, kernelOffsets, kernelValueList, sum, done, offsets, values, total)
    requires offsets' == offsets + head && values' == values + RawWeights(pr, head)
    requires total' == total + Sum(RawWeights(pr, head))
    ensures Listed(pr, kernelOffsets, kernelValueList, sum, done + head, offsets', values', total')
  {
    var wd, wh := RawWeights(pr, done), RawWeights(pr, head);
    RawWeightsConcat(pr, done, head);
    SumConcat(wd, wh);
    ConcatAssoc(kernelOffsets, done, head);
    ConcatAssoc(kernelValueList, wd, wh);
  }

  lemma Single(pr: Profile, offset: Pos)
    requires ProfileOk(pr)
    ensures RawWeights(pr, [offset]) == [RawWeight(pr, offset)]
    ensures Sum(RawWeights(pr, [offset])) == RawWeight(pr, offset)
  {
    assert RawWeights(pr, [offset]) == [RawWeight(pr, offset)];
    assert [RawWeight(pr, offset)][..0] == [];
  }

  /** The nested `for (i = -kernelRadius; i <= kernelRadius; i++)` loops of
      `InitializeKernel`: the loop at depth |prefix| with `d` loops inside it,
      appending each offset to `kernelOffsets`, its raw weight to
      `kernelValueList` and adding that weight to `sum`. */
  method KernelLoop(kernelOffsets: seq<Pos>, kernelValueList: seq<real>, sum: real, prefix: Pos, r: int, d: nat, pr: Profile)
    returns (offsets: seq<Pos>, values: seq<real>, total: real)
    requires ProfileOk(pr)
    ensures Listed(pr, kernelOffsets, kernelValueList, sum, Block(prefix, r, d), offsets, values, total)
    decreases d, 1
  {
    offsets, values, total := kernelOffsets, kernelValueList, sum;
    ghost var done: seq<Pos> := [];
    var c := -r;
    while c <= r
      invariant done + Remaining(prefix, c, r, d) == Block(prefix, r, d)
      invariant Listed(pr, kernelOffsets, kernelValueList, sum, done, offsets, values, total)
      decreases r - c
    {
      offsets, values, total := KernelPass(kernelOffsets, kernelValueList, sum, done, offsets, values, total, prefix, c, r, d, pr);
      done := done + Head(prefix, c, r, d);
      c := c + 1;
    }
    assert done == Block(prefix, r, d);
  }

  /** One pass of the loop body at counter value `c`, after the offsets `done`
      have been listed: the offset `prefix + [c]` and its weight at the innermost
      depth, the whole inner loop otherwise. */
  method KernelPass(kernelOffsets: seq<Pos>, kernelValueList: seq<real>, sum: real, ghost done: seq<Pos>,
                    offsets: seq<Pos>, values: seq<real>, total: real, prefix: Pos, c: int, r: int, d: nat, pr: Profile)
    returns (offsets': seq<Pos>, values': seq<real>, total': real)
    requires ProfileOk(pr) && c <= r
    requires done + Remaining(prefix, c, r, d) == Block(prefix, r, d)
    requires Listed(pr, kernelOffsets, kernelValueList, sum, done, offsets, values, total)
    ensures (done + Head(prefix, c, r, d)) + Remaining(prefix, c + 1, r, d) == Block(prefix, r, d)
    ensures Listed(pr, kernelOffsets, kernelValueList, sum, done + Head(prefix, c, r, d), offsets', values', total')
    decreases d, 0
  {
    RemainingStep(prefix, c, r, d, done);
    if d == 0 {
      var offset := prefix + [c];
      var value := RawWeight(pr, offset);
      Single(pr, offset);
      offsets', values', total' := offsets + [offset], values + [value], total + value;
    } else {
      offsets', values', total' := KernelLoop(offsets, values, total, prefix + [c], r, d - 1, pr);
    }
    ListedAppend(pr, kernelOffsets, kernelValueList, sum, done, offsets, values, total, Head(prefix, c, r, d), offsets', values', total');
  }

  /** `kernelOffsetIndices` as Generator3D.cs fills it, `kernelOffsetIndices[offset]
      = index++` at every listed offset: each offset maps to its list index, a
      later listing of the same offset overriding an earlier one. */
  function IndexOf(offsets: seq<Pos>): map<Pos, int>
  {
    if offsets == [] then map[]
    else
      var k := |offsets| - 1;
      IndexOf(offsets[..k])[offsets[k] := k]
  }

  /** Every listed offset, and nothing else, has an index. */
  lemma {:induction false} IndexOfKeys(offsets: seq<Pos>)
    ensures IndexOf(offsets).Keys == set n | 0 <= n < |offsets| :: offsets[n]
    decreases |offsets|
  {
    if offsets != [] {
      var k := |offsets| - 1;
      IndexOfKeys(offsets[..k]);
      assert (set n | 0 <= n < |offsets| :: offsets[n]) == (set n | 0 <= n < k :: offsets[..k][n]) + {offsets[k]};
    }
  }

  /** On a list without repetitions the index dictionary inverts the list. */
  lemma {:induction false} IndexOfDistinct(offsets: seq<Pos>)
    requires Distinct(offsets)
    ensures forall n :: 0 <= n < |offsets| ==> offsets[n] in IndexOf(offsets) && IndexOf(offsets)[offsets[n]] == n
    decreases |offsets|
  {
    if offsets != [] {
      var k := |offsets| - 1;
      IndexOfDistinct(offsets[..k]);
      forall n | 0 <= n < k
        ensures IndexOf(offsets)[offsets[n]] == n
      {
        assert offsets[n] == offsets[..k][n] != offsets[k];
      }
    }
  }

  lemma IndexOfSnoc(offsets: seq<Pos>, offset: Pos)
    ensures IndexOf(offsets + [offset]) == IndexOf(offsets)[offset := |offsets|]
  {
    assert (offsets + [offset])[..|offsets|] == offsets;
  }

  /** Generator3D.cs's version of `KernelLoop`, which also records the index of
      every offset in `kernelOffsetIndices`, `index` counting the offsets listed. */
  method IndexedKernelLoop(kernelOffsets: seq<Pos>, kernelOffsetIndices: map<Pos, int>, index: int,
                           kernelValueList: seq<real>, sum: real, prefix: Pos, r: int, d: nat, pr: Profile)
    returns (offsets: seq<Pos>, indices: map<Pos, int>, next: int, values: seq<real>, total: real)
    requires ProfileOk(pr)
    requires index == |kernelOffsets| && kernelOffsetIndices == IndexOf(kernelOffsets)
    ensures next == |offsets| && indices == IndexOf(offsets)
    ensures Listed(pr, kernelOffsets, kernelValueList, sum, Block(prefix, r, d), offsets, values, total)
    decreases d, 1
  {
    offsets, indices, next, values, total := kernelOffsets, kernelOffsetIndices, index, kernelValueList, sum;
    ghost var done: seq<Pos> := [];
    var c := -r;
    while c <= r
      invariant done + Remaining(prefix, c, r, d) == Block(prefix, r, d)
      invariant next == |offsets| && indices == IndexOf(offsets)
      invariant Listed(pr, kernelOffsets, kernelValueList, sum, done, offsets, values, total)
      decreases r - c
    {
      offsets, indices, next, values, total :=
        IndexedKernelPass(kernelOffsets, kernelValueList, sum, done, offsets, indices, next, values, total, prefix, c, r, d, pr);
      done := done + Head(prefix, c, r, d);
      c := c + 1;
    }
    assert done == Block(prefix, r, d);
  }

  /** One pass of the loop body of `IndexedKernelLoop` at counter value `c`,
      after the offsets `done` have been listed: the offset `prefix + [c]` and its
      weight at the innermost depth, the whole inner loop otherwise. */
  method IndexedKernelPass(kernelOffsets: seq<Pos>, kernelValueList: seq<real>, sum: real, ghost done: seq<Pos>,
                           offsets: seq<Pos>, indices: map<Pos, int>, next: int, values: seq<real>, total: real,
                           prefix: Pos, c: int, r: int, d: nat, pr: Profile)
    returns (offsets': seq<Pos>, indices': map<Pos, int>, next': int, values': seq<real>, total': real)
    requires ProfileOk(pr) && c <= r
    requires done + Remaining(prefix, c, r, d) == Block(prefix, r, d)
    requires next == |offsets| && indices == IndexOf(offsets)
    requires Listed(pr, kernelOffsets, kernelValueList, sum, done, offsets, values, total)
    ensures (done + Head(prefix, c, r, d)) + Remaining(prefix, c + 1, r, d) == Block(prefix, r, d)
    ensures next' == |offsets'| && indices' == IndexOf(offsets')
    ensures Listed(pr, kernelOffsets, kernelValueList, sum, done + Head(prefix, c, r, d), offsets', values', total')
    decreases d, 0
  {
    RemainingStep(prefix, c, r, d, done);
    if d == 0 {
      var offset := prefix + [c];
      var value := RawWeight(pr, offset);
      Single(pr, offset);
      IndexOfSnoc(offsets, offset);
      offsets', indices', next' := offsets + [offset], indices[offset := next], next + 1;
      values', total' := values + [value], total + value;
    } else {
      offsets', indices', next', values', total' := IndexedKernelLoop(offsets, indices, next, values, total, prefix + [c], r, d - 1, pr);
    }
    ListedAppend(pr, kernelOffsets, kernelValueList, sum, done, offsets, values, total, Head(prefix, c, r, d), offsets', values', total');
  }

  /** All D nested loops, started from empty lists: the cube [-r, r]^D. */
  lemma BlockIsCube(r: int, dim: nat)
    requires dim > 0
    ensures Block([], r, dim - 1) == Cube(r, dim)
  {
  }

  // ---------------------------------------------------------------------------
  // Normalisation

  /** Generator3D.cs: `kernelValues[idx] *= invSum` over the array, in place. */
  method ScaleInPlace(kernelValues: array<real>, invSum: real)
    modifies kernelValues
    ensures kernelValues[..] == Scaled(old(kernelValues[..]), invSum)
  {
    var idx := 0;
    while idx < kernelValues.Length
      invariant 0 <= idx <= kernelValues.Length
      invariant forall n :: 0 <= n < idx ==> kernelValues[n] == old(kernelValues[n]) * invSum
      invariant forall n :: idx <= n < kernelValues.Length ==> kernelValues[n] == old(kernelValues[n])
    {
      kernelValues[idx] := kernelValues[idx] * invSum;
      idx := idx + 1;
    }
    assert forall n :: 0 <= n < kernelValues.Length ==> kernelValues[..][n] == Scaled(old(kernelValues[..]), invSum)[n];
  }

  /** The other generators: `kernelValues[idx] = kernelValueList[idx] / sum` into a
      fresh array. The loop divides only when there is something to divide. */
  method DivideInto(kernelValueList: seq<real>, sum: real) returns (kernelValues: array<real>)
    requires kernelValueList != [] ==> sum != 0.0
    ensures fresh(kernelValues)
    ensures sum != 0.0 ==> kernelValues[..] == Divided(kernelValueList, sum)
    ensures sum == 0.0 ==> kernelValues[..] == []
  {
    kernelValues := new real[|kernelValueList|];
    var idx := 0;
    while idx < |kernelValueList|
      invariant 0 <= idx <= |kernelValueList| == kernelValues.Length
      invariant forall n :: 0 <= n < idx ==> kernelValues[n] == kernelValueList[n] / sum
    {
      kernelValues[idx] := kernelValueList[idx] / sum;
      idx := idx + 1;
    }
    if sum != 0.0 {
      assert kernelValues[..] == Divided(kernelValueList, sum);
    }
  }

  /** `kernelValueList[idx] / sum` at every index, `sum` being the total of the
      list: weights that add up to one. */
  function Normalized(weights: seq<real>): (w: seq<real>)
    requires weights != [] ==> Sum(weights) != 0.0
    ensures |w| == |weights|
    ensures weights != [] ==> Sum(w) == 1.0
  {
    if weights == [] then []
    else
      NormalizedSumsToOne(weights);
      Divided(weights, Sum(weights))
  }

  /** The weights the kernel loop leaves in `kernelValues` when it divides by the
      sum: the profile's weights over the cube, adding up to one. */
  function CubeWeights(pr: Profile, r: int, dim: nat): (w: seq<real>)
    requires ProfileOk(pr) && Engine.ExpOk(pr.exp)
    ensures |w| == |Cube(r, dim)|
    ensures Cube(r, dim) != [] ==> Sum(w) == 1.0
  {
    RawSumPositive(pr, Cube(r, dim));
    Normalized(RawWeights(pr, Cube(r, dim)))
  }

  /** The weights Generator3D.cs leaves in `kernelValues`: every raw weight
      multiplied in place by `invSum = 1 / sum`. */
  function ScaledWeights(pr: Profile, r: int, dim: nat): (w: seq<real>)
    requires ProfileOk(pr) && Engine.ExpOk(pr.exp)
    ensures |w| == |Cube(r, dim)|
    ensures Cube(r, dim) != [] ==> Sum(w) == 1.0
  {
    var raw := RawWeights(pr, Cube(r, dim));
    RawSumPositive(pr, Cube(r, dim));
    if raw == [] then raw
    else
      NormalizedSumsToOne(raw);
      Scaled(raw, 1.0 / Sum(raw))
  }

  /** Multiplying by the inverse of the sum and dividing by the sum give the
      same kernel: Generator3D.cs normalises as the other generators do. */
  lemma ScaledWeightsAreCubeWeights(pr: Profile, r: int, dim: nat)
    requires ProfileOk(pr) && Engine.ExpOk(pr.exp)
    ensures ScaledWeights(pr, r, dim) == CubeWeights(pr, r, dim)
  {
    var raw := RawWeights(pr, Cube(r, dim));
    RawSumPositive(pr, Cube(r, dim));
    if raw != [] {
      ScaledByInverse(raw, Sum(raw));
    }
  }

  /** The scaled weights over the cube make a symmetric kernel. */
  lemma ScaledWeightsSymmetric(pr: Profile, r: int, dim: nat)
    requires ProfileOk(pr) && Engine.ExpOk(pr.exp)
    ensures Engine.Symmetric(Engine.Kernel(Cube(r, dim), ScaledWeights(pr, r, dim)))
  {
    var raw := RawWeights(pr, Cube(r, dim));
    CubeKernelSymmetric(pr, r, dim);
    RawSumPositive(pr, Cube(r, dim));
    if raw != [] {
      ScaledSymmetric(Cube(r, dim), raw, 1.0 / Sum(raw));
    }
  }

  /** `InitializeKernel` of the generators that divide by the sum: the D nested
      loops append the cube's offsets to `kernelOffsets`, and `kernelValues` is a
      fresh array of their normalised weights. */
  method DividedKernel(kernelOffsets: seq<Pos>, r: int, dim: nat, pr: Profile) returns (offsets: seq<Pos>, kernelValues: array<real>)
    requires dim > 0 && ProfileOk(pr) && Engine.ExpOk(pr.exp)
    ensures offsets == kernelOffsets + Cube(r, dim)
    ensures fresh(kernelValues)
    ensures kernelValues[..] == CubeWeights(pr, r, dim)
  {
    var kernelValueList: seq<real> := [];
    var sum := 0.0;
    BlockIsCube(r, dim);
    offsets, kernelValueList, sum := KernelLoop(kernelOffsets, kernelValueList, sum, [], r, dim - 1, pr);
    assert kernelValueList == RawWeights(pr, Cube(r, dim));
    RawSumPositive(pr, Cube(r, dim));
    kernelValues := DivideInto(kernelValueList, sum);
  }

  /** `InitializeKernel` of Generator3D.cs: the D nested loops list the cube's
      offsets, each with its index in `kernelOffsetIndices`, the weights are
      copied into a fresh array and multiplied there by `invSum = 1 / sum`. When
      the cube is empty the total is zero and the array has nothing to scale. */
  method ScaledKernel(r: int, dim: nat, pr: Profile)
    returns (kernelOffsets: seq<Pos>, kernelOffsetIndices: map<Pos, int>, kernelValues: array<real>)
    requires dim > 0 && ProfileOk(pr) && Engine.ExpOk(pr.exp)
    ensures kernelOffsets == Cube(r, dim) && kernelOffsetIndices == IndexOf(kernelOffsets)
    ensures fresh(kernelValues)
    ensures kernelValues[..] == ScaledWeights(pr, r, dim)
    ensures Engine.KernelOk(Engine.Kernel(kernelOffsets, kernelValues[..]), dim)
  {
    var kernelValueList: seq<real> := [];
    var sum := 0.0;
    var index := 0;
    BlockIsCube(r, dim);
    kernelOffsets, kernelOffsetIndices, index, kernelValueList, sum :=
      IndexedKernelLoop([], map[], index, kernelValueList, sum, [], r, dim - 1, pr);
    assert kernelValueList == RawWeights(pr, Cube(r, dim));
    RawSumPositive(pr, Cube(r, dim));
    kernelValues := ScaleInto(kernelValueList, sum);
    assert kernelValues[..] == ScaledWeights(pr, r, dim);
    CubeKernelOk(r, dim, kernelValues[..]);
  }

  /** `kernelValues = kernelValueList.ToArray()`, then every entry multiplied in
      place by `invSum = 1 / sum`. */
  method ScaleInto(kernelValueList: seq<real>, sum: real) returns (kernelValues: array<real>)
    requires kernelValueList != [] ==> sum != 0.0
    ensures fresh(kernelValues)
    ensures sum != 0.0 ==> kernelValues[..] == Scaled(kernelValueList, 1.0 / sum)
    ensures kernelValueList == [] ==> kernelValues[..] == []
  {
    kernelValues := new real[|kernelValueList|](n requires 0 <= n < |kernelValueList| => kernelValueList[n]);
    assert kernelValues[..] == kernelValueList;
    var invSum := if sum != 0.0 then 1.0 / sum else 0.0;
    ScaleInPlace(kernelValues, invSum);
  }

  // ---------------------------------------------------------------------------
  // What the kernel is

  /** A kernel over the cube has (2r+1)^D offsets (none when r is negative). */
  lemma CubeSize(r: int, dim: nat)
    ensures |Cube(r, dim)| == Pow(Width(-r, r + 1), dim)
    ensures r >= 0 ==> |Cube(r, dim)| == Pow(2 * r + 1, dim)
  {
    GridLength(-r, r + 1, dim);
  }

  /** The offsets of a kernel over the cube are exactly the integer vectors of
      [-r, r]^D. */
  lemma CubeMembers(r: int, dim: nat)
    ensures forall x :: x in Cube(r, dim) <==> |x| == dim && forall i :: 0 <= i < dim ==> -r <= x[i] <= r
  {
    forall x {
      GridMembers(-r, r + 1, dim, x);
    }
  }

  /** The cube lists each offset once, in lexicographic order. */
  lemma CubeOrder(r: int, dim: nat)
    ensures Distinct(Cube(r, dim)) && Sorted(Cube(r, dim))
  {
    GridDistinct(-r, r + 1, dim);
    GridSorted(-r, r + 1, dim);
  }

  /** Any weights, one per offset of the cube, make a kernel of dimension `dim`. */
  lemma CubeKernelOk(r: int, dim: nat, weights: seq<real>)
    requires |weights| == |Cube(r, dim)|
    ensures Engine.KernelOk(Engine.Kernel(Cube(r, dim), weights), dim)
  {
    forall n | 0 <= n < |Cube(r, dim)|
      ensures |Cube(r, dim)[n]| == dim
    {
      GridMembers(-r, r + 1, dim, Cube(r, dim)[n]);
    }
  }

  /** The offset n places from the end of the cube is the mirror image of the n-th. */
  lemma CubeMirrorAt(r: int, dim: nat, n: nat)
    requires n < |Cube(r, dim)|
    ensures Cube(r, dim)[|Cube(r, dim)| - 1 - n] == Neg(Cube(r, dim)[n])
  {
    CubeMirror(r, dim);
    assert Mirrored(Cube(r, dim))[n] == Reverse(Cube(r, dim))[n];
  }

  /** Weights read off the offsets' lengths make a symmetric kernel over the cube:
      the offset n places from the end is the mirror image of the n-th, with
      the same weight. */
  lemma CubeKernelSymmetric(pr: Profile, r: int, dim: nat)
    requires ProfileOk(pr)
    ensures Engine.Symmetric(Engine.Kernel(Cube(r, dim), RawWeights(pr, Cube(r, dim))))
  {
    var cube := Cube(r, dim);
    var weights := RawWeights(pr, cube);
    var N := |cube|;
    forall n | 0 <= n < N
      ensures cube[N - 1 - n] == Neg(cube[n])
      ensures weights[N - 1 - n] == weights[n]
    {
      CubeMirrorAt(r, dim, n);
      RawWeightNeg(pr, cube[n]);
    }
  }

  /** Normalising keeps a kernel symmetric, whichever way it is written. */
  lemma ScaledSymmetric(offsets: seq<Pos>, weights: seq<real>, c: real)
    requires Engine.Symmetric(Engine.Kernel(offsets, weights))
    ensures Engine.Symmetric(Engine.Kernel(offsets, Scaled(weights, c)))
    ensures c != 0.0 ==> Engine.Symmetric(Engine.Kernel(offsets, Divided(weights, c)))
  {
    var N := |weights|;
    assert forall n :: 0 <= n < N ==> weights[N - 1 - n] == weights[n];
  }
}
