/** One generation of the sparse automaton, `NextGeneration`, in the two ways the
    generators compute it: by gathering (`CalculateConvolution` at every position
    some live cell reaches) and by scattering (every live cell adds its weighted
    value to the positions it reaches). */
module Engine {
  import opened Vectors
  import opened Sequences
  import opened Sums
  import opened Field

  /** `kernelOffsets` and `kernelValues`, paired by index. */
  datatype Kernel = Kernel(offsets: seq<Pos>, weights: seq<real>)

  ghost predicate KernelOk(k: Kernel, d: nat)
  {
    |k.offsets| == |k.weights| && forall n :: 0 <= n < |k.offsets| ==> |k.offsets[n]| == d
  }

  /** `GrowthFunction`: `exp(-(x - center)^2 / twoGrowthSigmaSquared)`, with the
      exponential given as a parameter. */
  datatype Growth = Growth(exp: real -> real, center: real, twoGrowthSigmaSquared: real)

  /** What `Math.Exp` is relied on for: positive, and at most 1 for arguments that
      are not positive, with exp(0) = 1. */
  ghost predicate ExpOk(exp: real -> real)
  {
    && (forall x :: exp(x) > 0.0)
    && (forall x :: x <= 0.0 ==> exp(x) <= 1.0)
    && exp(0.0) == 1.0
  }

  function Exponent(g: Growth, x: real): real
    requires g.twoGrowthSigmaSquared != 0.0
  {
    -((x - g.center) * (x - g.center)) / g.twoGrowthSigmaSquared
  }

  function Bell(g: Growth, x: real): real
    requires g.twoGrowthSigmaSquared != 0.0
  {
    g.exp(Exponent(g, x))
  }

  /** The growth curve peaks at `center` with value 1, is positive everywhere,
      and is symmetric about `center`. */
  lemma BellShape(g: Growth, x: real, t: real)
    requires ExpOk(g.exp) && g.twoGrowthSigmaSquared > 0.0
    ensures 0.0 < Bell(g, x) <= 1.0
    ensures Bell(g, g.center) == 1.0
    ensures Bell(g, g.center + t) == Bell(g, g.center - t)
  {
    assert (x - g.center) * (x - g.center) >= 0.0;
    assert Exponent(g, x) <= 0.0;
    assert Exponent(g, g.center) == 0.0;
    assert g.center + t - g.center == t;
    assert Exponent(g, g.center + t) == Exponent(g, g.center - t);
  }

  /** The update rule of a generator: its kernel, its growth curve and `deltaT`. */
  datatype Rule = Rule(dim: nat, kernel: Kernel, growth: Growth, deltaT: real)

  /** `2 * sigma * sigma`, the denominator of `GrowthFunction`. */
  function TwiceSquare(sigma: real): real
  {
    2.0 * sigma * sigma
  }

  /** The denominator is positive whenever sigma is not zero. */
  lemma TwiceSquarePositive(sigma: real)
    ensures sigma != 0.0 ==> TwiceSquare(sigma) > 0.0
  {
    if sigma != 0.0 {
      var twice := 2.0 * sigma;
      assert twice * sigma == TwiceSquare(sigma);
      if sigma > 0.0 {
        assert twice > 0.0;
        assert twice * sigma > 0.0;
      } else {
        assert twice < 0.0;
        assert twice * sigma > 0.0;
      }
    }
  }

  /** `x * x`, how Generator3D.cs precomputes `kernelSigmaSquared` and
      `growthSigmaSquared`, and `Math.Pow(x, 2)` for `kernelR0Squared`. */
  function Square(x: real): real
  {
    x * x
  }

  /** Twice a square is the denominator the other generators write as
      `2 * growthSigma * growthSigma`. */
  lemma SquareHalf(x: real)
    ensures 2.0 * Square(x) == TwiceSquare(x)
  {
  }

  /** The square of a width that is not zero is positive. */
  lemma SquarePositive(x: real)
    ensures x != 0.0 ==> Square(x) > 0.0
  {
    TwiceSquarePositive(x);
    SquareHalf(x);
  }

  /** `kernelRadius * multiplier`, how `Run` sets `kernelSigma` and `growthSigma`
      in Generator3D.cs, Generator3D.cs.cs and Generator4D.cs: not zero when
      neither factor is. */
  function WidthFor(kernelRadius: int, multiplier: real): (width: real)
    ensures kernelRadius != 0 && multiplier != 0.0 ==> width != 0.0
  {
    kernelRadius as real * multiplier
  }

  ghost predicate RuleOk(rule: Rule)
  {
    KernelOk(rule.kernel, rule.dim) && rule.growth.twoGrowthSigmaSquared != 0.0
  }

  /** `positionsToUpdate`: every live position moved by every kernel offset. */
  function Reach(keys: set<Pos>, offsets: seq<Pos>): set<Pos>
    requires forall q, n :: q in keys && 0 <= n < |offsets| ==> |q| == |offsets[n]|
  {
    set q, n | q in keys && 0 <= n < |offsets| :: Add(q, offsets[n])
  }

  /** The terms `CalculateConvolution(position)` adds, in loop order: the weight
      times the value of the neighbour `position + offset` when it is stored, and
      nothing otherwise. */
  function GatherTerms(f: Field, k: Kernel, p: Pos): (t: seq<real>)
    requires KernelOk(k, |p|)
    ensures |t| == |k.offsets|
  {
    seq(|k.offsets|, n requires 0 <= n < |k.offsets| =>
      var q := Add(p, k.offsets[n]); if q in f then f[q] * k.weights[n] else 0.0)
  }

  /** What the scattering loop accumulates at `p` from the live cells `f`, grouped
      by kernel index: cell `p - offset` contributes its value times the weight. */
  function ScatterTerms(f: Field, k: Kernel, p: Pos): (t: seq<real>)
    requires KernelOk(k, |p|)
    ensures |t| == |k.offsets|
  {
    seq(|k.offsets|, n requires 0 <= n < |k.offsets| =>
      var q := Sub(p, k.offsets[n]); if q in f then f[q] * k.weights[n] else 0.0)
  }

  /** `aliveCellValue * kernelValues[i]`: what one live cell adds through one kernel entry. */
  function Contribution(value: real, weight: real): real
  {
    value * weight
  }

  /** The contributions one live cell `q` of value `v` makes at `p`, by kernel index. */
  function HitTerms(q: Pos, v: real, k: Kernel, p: Pos): (t: seq<real>)
    requires KernelOk(k, |p|) && |q| == |p|
    ensures |t| == |k.offsets|
  {
    seq(|k.offsets|, n requires 0 <= n < |k.offsets| =>
      if Add(q, k.offsets[n]) == p then Contribution(v, k.weights[n]) else 0.0)
  }

  datatype Strategy = Gather | Scatter

  function Convolution(s: Strategy, f: Field, k: Kernel, p: Pos): real
    requires KernelOk(k, |p|)
  {
    match s
    case Gather => Sum(GatherTerms(f, k, p))
    case Scatter => Sum(ScatterTerms(f, k, p))
  }

  /** `newValue` at `p`. */
  function Updated(s: Strategy, f: Field, rule: Rule, p: Pos): real
    requires RuleOk(rule) && |p| == rule.dim
  {
    NextValue(Get(f, p), rule.deltaT, Bell(rule.growth, Convolution(s, f, rule.kernel, p)))
  }

  /** The field `NextGeneration` leaves in `aliveCells`. */
  function Step(s: Strategy, f: Field, rule: Rule): (g: Field)
    requires RuleOk(rule) && AllDim(f, rule.dim)
    ensures AllDim(g, rule.dim) && InRange(g)
  {
    map p | p in Reach(f.Keys, rule.kernel.offsets) && Updated(s, f, rule, p) > Threshold :: Updated(s, f, rule, p)
  }

  /** Which positions survive: exactly those some live cell reaches whose new
      value is above the threshold; and they carry that value. */
  lemma StepMembers(s: Strategy, f: Field, rule: Rule, p: Pos)
    requires RuleOk(rule) && AllDim(f, rule.dim)
    ensures p in Step(s, f, rule) <==> p in Reach(f.Keys, rule.kernel.offsets) && Updated(s, f, rule, p) > Threshold
    ensures p in Step(s, f, rule) ==> Step(s, f, rule)[p] == Updated(s, f, rule, p)
  {
  }

  /** The step depends only on where the live cells reach: a field with no live
      cell stays empty, and so does any field under an empty kernel. */
  lemma StepEmpty(s: Strategy, f: Field, rule: Rule)
    requires RuleOk(rule) && AllDim(f, rule.dim)
    requires f == map[] || rule.kernel.offsets == []
    ensures Step(s, f, rule) == map[]
  {
    assert Reach(f.Keys, rule.kernel.offsets) == {};
  }

  /** With the zero offset in the kernel (every generator's kernel has it) each
      live cell is re-evaluated, so it survives exactly when its new value is
      above the threshold; a growth of at least one half keeps it alive with a
      value no smaller than before. */
  lemma StepLiveCells(s: Strategy, f: Field, rule: Rule, p: Pos)
    requires RuleOk(rule) && AllDim(f, rule.dim) && InRange(f)
    requires Zero(rule.dim) in rule.kernel.offsets
    requires p in f
    ensures p in Step(s, f, rule) <==> Updated(s, f, rule, p) > Threshold
    ensures rule.deltaT >= 0.0 && Bell(rule.growth, Convolution(s, f, rule.kernel, p)) >= 0.5 ==>
              p in Step(s, f, rule) && Step(s, f, rule)[p] >= f[p]
  {
    var n :| 0 <= n < |rule.kernel.offsets| && rule.kernel.offsets[n] == Zero(rule.dim);
    AddZero(p);
    assert Add(p, rule.kernel.offsets[n]) == p;
  }

  // ---------------------------------------------------------------------------
  // Scatter and gather agree on symmetric kernels.

  /** The kernel read backwards is the kernel with every offset negated, weights
      unchanged: what a kernel enumerated over a cube with weights depending only
      on the distance satisfies. */
  ghost predicate Symmetric(k: Kernel)
  {
    && |k.offsets| == |k.weights|
    && forall n :: 0 <= n < |k.offsets| ==>
         && k.offsets[|k.offsets| - 1 - n] == Neg(k.offsets[n])
         && k.weights[|k.weights| - 1 - n] == k.weights[n]
  }

  lemma ScatterIsReversedGather(f: Field, k: Kernel, p: Pos)
    requires KernelOk(k, |p|) && Symmetric(k)
    ensures ScatterTerms(f, k, p) == Reverse(GatherTerms(f, k, p))
  {
    var N := |k.offsets|;
    forall n | 0 <= n < N
      ensures ScatterTerms(f, k, p)[n] == Reverse(GatherTerms(f, k, p))[n]
    {
      var m := N - 1 - n;
      assert k.offsets[m] == Neg(k.offsets[n]);
      AddNegIsSub(p, k.offsets[n]);
    }
  }

  /** On a symmetric kernel the scattered convolution equals the gathered one at
      every position, so the two implementations of `NextGeneration` produce the
      same next field. */
  lemma ScatterEqualsGather(f: Field, rule: Rule)
    requires RuleOk(rule) && AllDim(f, rule.dim) && Symmetric(rule.kernel)
    ensures Step(Scatter, f, rule) == Step(Gather, f, rule)
  {
    forall p | |p| == rule.dim
      ensures Updated(Scatter, f, rule, p) == Updated(Gather, f, rule, p)
    {
      ConvolutionsAgree(f, rule.kernel, p);
    }
    FieldsEqual(Step(Scatter, f, rule), Step(Gather, f, rule));
  }

  /** Under a symmetric kernel the two convolutions agree at every position. */
  lemma ConvolutionsAgree(f: Field, k: Kernel, p: Pos)
    requires KernelOk(k, |p|) && Symmetric(k)
    ensures Convolution(Scatter, f, k, p) == Convolution(Gather, f, k, p)
  {
    ScatterIsReversedGather(f, k, p);
    SumReverse(GatherTerms(f, k, p));
  }


  // ---------------------------------------------------------------------------
  // The loops.

  /** The positions one live cell `q` reaches through the first `idx` offsets. */
  function Hits(q: Pos, offsets: seq<Pos>, idx: nat): set<Pos>
    requires idx <= |offsets| && forall n :: 0 <= n < |offsets| ==> |offsets[n]| == |q|
  {
    set n | 0 <= n < idx :: Add(q, offsets[n])
  }

  lemma HitsStep(q: Pos, offsets: seq<Pos>, idx: nat)
    requires 0 < idx <= |offsets| && forall n :: 0 <= n < |offsets| ==> |offsets[n]| == |q|
    ensures Hits(q, offsets, idx) == Hits(q, offsets, idx - 1) + {Add(q, offsets[idx - 1])}
  {
    assert Add(q, offsets[idx - 1]) in Hits(q, offsets, idx);
  }

  lemma ReachInsert(keys: set<Pos>, q: Pos, offsets: seq<Pos>)
    requires forall p, n :: p in keys + {q} && 0 <= n < |offsets| ==> |p| == |offsets[n]|
    ensures Reach(keys + {q}, offsets) == Reach(keys, offsets) + Hits(q, offsets, |offsets|)
  {
    forall p | p in Reach(keys + {q}, offsets)
      ensures p in Reach(keys, offsets) + Hits(q, offsets, |offsets|)
    {
      var r, n :| r in keys + {q} && 0 <= n < |offsets| && p == Add(r, offsets[n]);
      if r != q {
        assert p in Reach(keys, offsets);
      }
    }
  }

  /** The inner loop of the first loop of `NextGeneration`: the positions one live
      cell reaches are added to the set. */
  method AddNeighbors(positions: set<Pos>, cellPos: Pos, offsets: seq<Pos>) returns (result: set<Pos>)
    requires forall n :: 0 <= n < |offsets| ==> |offsets[n]| == |cellPos|
    ensures result == positions + Hits(cellPos, offsets, |offsets|)
  {
    result := positions;
    var idx := 0;
    while idx < |offsets|
      invariant 0 <= idx <= |offsets|
      invariant result == positions + Hits(cellPos, offsets, idx)
    {
      result := result + {Add(cellPos, offsets[idx])};
      idx := idx + 1;
      HitsStep(cellPos, offsets, idx);
    }
  }

  /** The first loop of `NextGeneration`: `positionsToUpdate.Add(cellPos + offset)`
      for every live position and every offset. */
  method CollectPositions(cells: Field, offsets: seq<Pos>) returns (positions: set<Pos>)
    requires forall q, n :: q in cells && 0 <= n < |offsets| ==> |q| == |offsets[n]|
    ensures positions == Reach(cells.Keys, offsets)
  {
    positions := {};
    var todo := cells.Keys;
    while todo != {}
      invariant todo <= cells.Keys
      invariant positions == Reach(cells.Keys - todo, offsets)
      decreases todo
    {
      var cellPos :| cellPos in todo;
      positions := AddNeighbors(positions, cellPos, offsets);
      ReachInsert(cells.Keys - todo, cellPos, offsets);
      assert cells.Keys - (todo - {cellPos}) == (cells.Keys - todo) + {cellPos};
      todo := todo - {cellPos};
    }
    assert cells.Keys - {} == cells.Keys;
  }

  /** `CalculateConvolution(position)`: the weighted sum over the stored neighbours. */
  method CalculateConvolution(cells: Field, offsets: seq<Pos>, weights: seq<real>, position: Pos)
    returns (sum: real)
    requires KernelOk(Kernel(offsets, weights), |position|)
    ensures sum == Convolution(Gather, cells, Kernel(offsets, weights), position)
  {
    ghost var terms := GatherTerms(cells, Kernel(offsets, weights), position);
    sum := 0.0;
    var idx := 0;
    while idx < |offsets|
      invariant 0 <= idx <= |offsets|
      invariant sum == Sum(terms[..idx])
    {
      var neighborPos := Add(position, offsets[idx]);
      SumStep(terms, idx);
      if neighborPos in cells {
        sum := sum + cells[neighborPos] * weights[idx];
      }
      idx := idx + 1;
    }
    assert terms[..idx] == terms;
  }

  /** `newValue` at a position whose convolution value is `c`. */
  function NewValue(cells: Field, p: Pos, c: real, growth: Growth, deltaT: real): real
    requires growth.twoGrowthSigmaSquared != 0.0
  {
    NextValue(Get(cells, p), deltaT, Bell(growth, c))
  }

  /** `newAliveCells` holds, over `positions`, exactly the new values above the threshold. */
  ghost predicate KeepsAbove(newAliveCells: Field, cells: Field, positions: set<Pos>, convolution: map<Pos, real>, growth: Growth, deltaT: real)
    requires positions <= convolution.Keys && growth.twoGrowthSigmaSquared != 0.0
  {
    && (forall p :: p in newAliveCells ==> p in positions && newAliveCells[p] == NewValue(cells, p, convolution[p], growth, deltaT))
    && (forall p :: p in positions ==> (p in newAliveCells <==> NewValue(cells, p, convolution[p], growth, deltaT) > Threshold))
  }

  lemma KeepsAboveInsert(newAliveCells: Field, cells: Field, done: set<Pos>, p: Pos, convolution: map<Pos, real>, growth: Growth, deltaT: real)
    requires done <= convolution.Keys && p in convolution && p !in done && growth.twoGrowthSigmaSquared != 0.0
    requires KeepsAbove(newAliveCells, cells, done, convolution, growth, deltaT)
    ensures var v := NewValue(cells, p, convolution[p], growth, deltaT);
            KeepsAbove(if v > Threshold then newAliveCells[p := v] else newAliveCells, cells, done + {p}, convolution, growth, deltaT)
  {
  }

  /** Taking one position off the positions still to do adds it to those done. */
  lemma TakeOne(positions: set<Pos>, todo: set<Pos>, position: Pos)
    requires position in todo && todo <= positions
    ensures positions - (todo - {position}) == (positions - todo) + {position}
  {
  }

  /** `if (newValue > 0.01f) newAliveCells[position] = newValue;` */
  method KeepIfAbove(newAliveCells: Field, cells: Field, ghost done: set<Pos>, position: Pos, newValue: real,
                     ghost convolution: map<Pos, real>, growth: Growth, deltaT: real)
    returns (kept: Field)
    requires done <= convolution.Keys && position in convolution && position !in done && growth.twoGrowthSigmaSquared != 0.0
    requires newValue == NewValue(cells, position, convolution[position], growth, deltaT)
    requires KeepsAbove(newAliveCells, cells, done, convolution, growth, deltaT)
    ensures KeepsAbove(kept, cells, done + {position}, convolution, growth, deltaT)
  {
    KeepsAboveInsert(newAliveCells, cells, done, position, convolution, growth, deltaT);
    kept := if newValue > Threshold then newAliveCells[position := newValue] else newAliveCells;
  }

  /** The second loop of `NextGeneration`, shared by every generator: the new value
      of each position to update, kept when above the threshold. `convolution`
      gives the convolution value at each of those positions. */
  method UpdatePositions(cells: Field, positions: set<Pos>, convolution: map<Pos, real>, growth: Growth, deltaT: real)
    returns (newAliveCells: Field)
    requires positions <= convolution.Keys
    requires growth.twoGrowthSigmaSquared != 0.0
    ensures KeepsAbove(newAliveCells, cells, positions, convolution, growth, deltaT)
  {
    newAliveCells := map[];
    var todo := positions;
    ghost var done: set<Pos> := {};
    while todo != {}
      invariant todo <= positions && done == positions - todo
      invariant KeepsAbove(newAliveCells, cells, done, convolution, growth, deltaT)
      decreases todo
    {
      var position :| position in todo;
      var convolutionValue := convolution[position];
      var g := Bell(growth, convolutionValue);
      var currentValue := if position in cells then cells[position] else 0.0;
      var newValue := Clamp01(currentValue + deltaT * (2.0 * g - 1.0));
      assert newValue == NewValue(cells, position, convolution[position], growth, deltaT);
      newAliveCells := KeepIfAbove(newAliveCells, cells, done, position, newValue, convolution, growth, deltaT);
      TakeOne(positions, todo, position);
      todo, done := todo - {position}, done + {position};
    }
    assert done == positions;
  }

  lemma UpdateAt(s: Strategy, cells: Field, rule: Rule, convolution: map<Pos, real>, newAliveCells: Field, p: Pos)
    requires RuleOk(rule) && AllDim(cells, rule.dim)
    requires convolution.Keys == Reach(cells.Keys, rule.kernel.offsets)
    requires p in convolution && |p| == rule.dim && convolution[p] == Convolution(s, cells, rule.kernel, p)
    requires KeepsAbove(newAliveCells, cells, convolution.Keys, convolution, rule.growth, rule.deltaT)
    ensures p in newAliveCells <==> p in Step(s, cells, rule)
    ensures p in newAliveCells ==> newAliveCells[p] == Step(s, cells, rule)[p]
  {
    assert NewValue(cells, p, convolution[p], rule.growth, rule.deltaT) == Updated(s, cells, rule, p);
    StepMembers(s, cells, rule, p);
  }

  /** A map kept by `UpdatePositions` from the convolution values of strategy `s`
      at the reached positions is the next field. */
  lemma UpdateIsStep(s: Strategy, cells: Field, rule: Rule, convolution: map<Pos, real>, newAliveCells: Field)
    requires RuleOk(rule) && AllDim(cells, rule.dim)
    requires convolution.Keys == Reach(cells.Keys, rule.kernel.offsets)
    requires forall p :: p in convolution ==> |p| == rule.dim && convolution[p] == Convolution(s, cells, rule.kernel, p)
    requires KeepsAbove(newAliveCells, cells, convolution.Keys, convolution, rule.growth, rule.deltaT)
    ensures newAliveCells == Step(s, cells, rule)
  {
    var g := Step(s, cells, rule);
    forall p | p in convolution
      ensures p in newAliveCells <==> p in g
    {
      UpdateAt(s, cells, rule, convolution, newAliveCells, p);
    }
    assert g.Keys <= convolution.Keys;
    forall p | p in g
      ensures newAliveCells[p] == g[p]
    {
      UpdateAt(s, cells, rule, convolution, newAliveCells, p);
    }
    FieldsEqual(newAliveCells, g);
  }

  lemma FieldsEqual(a: Field, b: Field)
    requires forall p :: p in a <==> p in b
    requires forall p :: p in b ==> a[p] == b[p]
    ensures a == b
  {
  }

  /** The convolution at each position to update, as the gathering generators
      compute it there. */
  ghost function GatherConvolutions(cells: Field, positions: set<Pos>, k: Kernel): (c: map<Pos, real>)
    requires forall p :: p in positions ==> KernelOk(k, |p|)
    ensures c.Keys == positions
    ensures forall p :: p in c ==> c[p] == Convolution(Gather, cells, k, p)
  {
    map p | p in positions :: Convolution(Gather, cells, k, p)
  }

  /** The body of the second loop of `NextGeneration` in the gathering
      generators: the convolution at `position`, its growth and the new value. */
  method GatherNewValue(cells: Field, offsets: seq<Pos>, weights: seq<real>, growth: Growth, deltaT: real, position: Pos)
    returns (newValue: real)
    requires KernelOk(Kernel(offsets, weights), |position|)
    requires growth.twoGrowthSigmaSquared != 0.0
    ensures newValue == NewValue(cells, position, Convolution(Gather, cells, Kernel(offsets, weights), position), growth, deltaT)
  {
    var convolutionValue := CalculateConvolution(cells, offsets, weights, position);
    var g := Bell(growth, convolutionValue);
    var currentValue := if position in cells then cells[position] else 0.0;
    newValue := Clamp01(currentValue + deltaT * (2.0 * g - 1.0));
  }

  /** The second loop of `NextGeneration` in the gathering generators: the
      convolution at each position to update, then its new value, kept when above
      the threshold. */
  method GatherUpdate(cells: Field, positions: set<Pos>, offsets: seq<Pos>, weights: seq<real>, growth: Growth, deltaT: real)
    returns (newAliveCells: Field)
    requires forall p :: p in positions ==> KernelOk(Kernel(offsets, weights), |p|)
    requires growth.twoGrowthSigmaSquared != 0.0
    ensures KeepsAbove(newAliveCells, cells, positions, GatherConvolutions(cells, positions, Kernel(offsets, weights)), growth, deltaT)
  {
    ghost var convolution := GatherConvolutions(cells, positions, Kernel(offsets, weights));
    newAliveCells := map[];
    var todo := positions;
    ghost var done: set<Pos> := {};
    while todo != {}
      invariant todo <= positions && done == positions - todo
      invariant KeepsAbove(newAliveCells, cells, done, convolution, growth, deltaT)
      decreases todo
    {
      var position :| position in todo;
      var newValue := GatherNewValue(cells, offsets, weights, growth, deltaT, position);
      newAliveCells := KeepIfAbove(newAliveCells, cells, done, position, newValue, convolution, growth, deltaT);
      TakeOne(positions, todo, position);
      todo, done := todo - {position}, done + {position};
    }
    assert done == positions;
  }

  /** `NextGeneration` of the gathering generators. */
  method GatherGeneration(cells: Field, offsets: seq<Pos>, weights: seq<real>, growth: Growth, deltaT: real, ghost dim: nat)
    returns (newAliveCells: Field)
    requires RuleOk(Rule(dim, Kernel(offsets, weights), growth, deltaT)) && AllDim(cells, dim)
    ensures newAliveCells == Step(Gather, cells, Rule(dim, Kernel(offsets, weights), growth, deltaT))
  {
    ghost var rule := Rule(dim, Kernel(offsets, weights), growth, deltaT);
    var positionsToUpdate := CollectPositions(cells, offsets);
    newAliveCells := GatherUpdate(cells, positionsToUpdate, offsets, weights, growth, deltaT);
    UpdateIsStep(Gather, cells, rule, GatherConvolutions(cells, positionsToUpdate, rule.kernel), newAliveCells);
  }

  /** What the scattering loop has accumulated after the live cells `done`: the
      keys are the positions they reach and every value is their scattered sum. */
  ghost predicate Scattered(conv: map<Pos, real>, done: Field, k: Kernel, d: nat)
    requires KernelOk(k, d) && AllDim(done, d)
  {
    && conv.Keys == Reach(done.Keys, k.offsets)
    && forall p :: p in conv ==> |p| == d && conv[p] == Sum(ScatterTerms(done, k, p))
  }

  /** Adding one live cell `q` to the scattered set adds its hits at `p`. */
  lemma ScatterInsert(done: Field, q: Pos, v: real, k: Kernel, p: Pos)
    requires KernelOk(k, |p|) && |q| == |p| && q !in done
    ensures Sum(ScatterTerms(done[q := v], k, p)) == Sum(ScatterTerms(done, k, p)) + Sum(HitTerms(q, v, k, p))
  {
    forall n | 0 <= n < |k.offsets|
      ensures ScatterTerms(done[q := v], k, p)[n] == ScatterTerms(done, k, p)[n] + HitTerms(q, v, k, p)[n]
    {
      AddSubInverse(p, k.offsets[n], q);
    }
    SumPointwise(ScatterTerms(done, k, p), HitTerms(q, v, k, p), ScatterTerms(done[q := v], k, p));
  }

  /** One more kernel index of the current cell's hits at `p`. */
  lemma HitStep(q: Pos, v: real, k: Kernel, p: Pos, idx: nat)
    requires KernelOk(k, |p|) && |q| == |p| && 0 < idx <= |k.offsets|
    ensures Sum(HitTerms(q, v, k, p)[..idx])
            == Sum(HitTerms(q, v, k, p)[..idx - 1]) + (if Add(q, k.offsets[idx - 1]) == p then Contribution(v, k.weights[idx - 1]) else 0.0)
  {
    SumStep(HitTerms(q, v, k, p), idx - 1);
  }

  /** A position the current cell has not reached yet has had no hit from it. */
  lemma NoHitYet(q: Pos, v: real, k: Kernel, p: Pos, idx: nat)
    requires KernelOk(k, |p|) && |q| == |p| && idx <= |k.offsets|
    requires p !in Hits(q, k.offsets, idx)
    ensures Sum(HitTerms(q, v, k, p)[..idx]) == 0.0
  {
    forall n | 0 <= n < idx
      ensures HitTerms(q, v, k, p)[..idx][n] == 0.0
    {
      assert Add(q, k.offsets[n]) in Hits(q, k.offsets, idx);
    }
    SumZeros(HitTerms(q, v, k, p)[..idx]);
  }

  /** The map after the first `idx` passes of the offset loop of one live cell `q`. */
  ghost function Scattering(start: map<Pos, real>, q: Pos, v: real, k: Kernel, idx: nat): map<Pos, real>
    requires KernelOk(k, |q|) && idx <= |k.offsets|
  {
    if idx == 0 then start
    else
      var prev := Scattering(start, q, v, k, idx - 1);
      var neighborPos := Add(q, k.offsets[idx - 1]);
      prev[neighborPos := Get(prev, neighborPos) + Contribution(v, k.weights[idx - 1])]
  }

  lemma ScatteringNext(start: map<Pos, real>, q: Pos, v: real, k: Kernel, idx: nat)
    requires KernelOk(k, |q|) && idx < |k.offsets|
    ensures var prev := Scattering(start, q, v, k, idx);
            var neighborPos := Add(q, k.offsets[idx]);
            var contribution := Contribution(v, k.weights[idx]);
            Scattering(start, q, v, k, idx + 1)
            == prev[neighborPos := if neighborPos in prev then prev[neighborPos] + contribution else contribution]
  {
  }

  /** After `idx` passes, a position is stored when it was stored at the start or
      is reached through one of the first `idx` offsets, and it holds its start
      value plus the contributions of those offsets. */
  lemma {:induction false} ScatteringAt(start: map<Pos, real>, q: Pos, v: real, k: Kernel, idx: nat, p: Pos)
    requires KernelOk(k, |q|) && idx <= |k.offsets| && |p| == |q|
    ensures p in Scattering(start, q, v, k, idx) <==> p in start || p in Hits(q, k.offsets, idx)
    ensures p in Scattering(start, q, v, k, idx) ==>
              Scattering(start, q, v, k, idx)[p] == Get(start, p) + Sum(HitTerms(q, v, k, p)[..idx])
    decreases idx
  {
    if idx == 0 {
      assert HitTerms(q, v, k, p)[..0] == [];
    } else {
      ScatteringAt(start, q, v, k, idx - 1, p);
      HitsStep(q, k.offsets, idx);
      HitStep(q, v, k, p, idx);
      if p !in Scattering(start, q, v, k, idx - 1) {
        NoHitYet(q, v, k, p, idx - 1);
      }
    }
  }

  /** The stored positions of the map after `idx` passes are the starting ones and
      those reached through the first `idx` offsets. */
  lemma {:induction false} ScatteringKeys(start: map<Pos, real>, q: Pos, v: real, k: Kernel, idx: nat)
    requires KernelOk(k, |q|) && AllDim(start, |q|) && idx <= |k.offsets|
    ensures Scattering(start, q, v, k, idx).Keys == start.Keys + Hits(q, k.offsets, idx)
    decreases idx
  {
    if idx > 0 {
      ScatteringKeys(start, q, v, k, idx - 1);
      HitsStep(q, k.offsets, idx);
    }
  }

  /** After all the offsets: the start map plus, at every position the cell
      reaches, the sum of its contributions there. */
  lemma ScatteringComplete(start: map<Pos, real>, q: Pos, v: real, k: Kernel)
    requires KernelOk(k, |q|) && AllDim(start, |q|)
    ensures Scattering(start, q, v, k, |k.offsets|).Keys == start.Keys + Hits(q, k.offsets, |k.offsets|)
    ensures forall p :: p in Scattering(start, q, v, k, |k.offsets|) ==>
              |p| == |q| && Scattering(start, q, v, k, |k.offsets|)[p] == Get(start, p) + Sum(HitTerms(q, v, k, p))
  {
    var done := Scattering(start, q, v, k, |k.offsets|);
    ScatteringKeys(start, q, v, k, |k.offsets|);
    forall p | p in done
      ensures |p| == |q| && done[p] == Get(start, p) + Sum(HitTerms(q, v, k, p))
    {
      assert HitTerms(q, v, k, p)[..|k.offsets|] == HitTerms(q, v, k, p);
      ScatteringAt(start, q, v, k, |k.offsets|, p);
    }
  }

  /** The body of the `Parallel.ForEach` lambda for one live cell at `aliveCellPos`:
      `AddOrUpdate(neighborPos, contribution, (key, oldValue) => oldValue + contribution)`
      for every offset. */
  method ScatterCell(convolutionValues: map<Pos, real>, aliveCellPos: Pos, aliveCellValue: real, offsets: seq<Pos>, weights: seq<real>)
    returns (updated: map<Pos, real>)
    requires KernelOk(Kernel(offsets, weights), |aliveCellPos|) && AllDim(convolutionValues, |aliveCellPos|)
    ensures updated.Keys == convolutionValues.Keys + Hits(aliveCellPos, offsets, |offsets|)
    ensures forall p :: p in updated ==>
              |p| == |aliveCellPos| &&
              updated[p] == Get(convolutionValues, p) + Sum(HitTerms(aliveCellPos, aliveCellValue, Kernel(offsets, weights), p))
  {
    ghost var k := Kernel(offsets, weights);
    updated := convolutionValues;
    var idx := 0;
    while idx < |offsets|
      invariant 0 <= idx <= |offsets|
      invariant updated == Scattering(convolutionValues, aliveCellPos, aliveCellValue, k, idx)
    {
      var neighborPos := Add(aliveCellPos, offsets[idx]);
      var contribution := Contribution(aliveCellValue, weights[idx]);
      var newValue := if neighborPos in updated then updated[neighborPos] + contribution else contribution;
      updated := updated[neighborPos := newValue];
      ScatteringNext(convolutionValues, aliveCellPos, aliveCellValue, k, idx);
      idx := idx + 1;
    }
    assert updated == Scattering(convolutionValues, aliveCellPos, aliveCellValue, k, |k.offsets|);
    ScatteringComplete(convolutionValues, aliveCellPos, aliveCellValue, k);
  }

  /** After `ScatterCell` for cell `q`, the accumulated map is the scattered sum
      over the cells done so far plus `q`. */
  lemma ScatterCellDone(before: map<Pos, real>, after: map<Pos, real>, done: Field, q: Pos, v: real, k: Kernel, dim: nat)
    requires KernelOk(k, dim) && AllDim(done, dim) && |q| == dim && q !in done
    requires Scattered(before, done, k, dim)
    requires after.Keys == before.Keys + Hits(q, k.offsets, |k.offsets|)
    requires forall p :: p in after ==> |p| == dim && after[p] == Get(before, p) + Sum(HitTerms(q, v, k, p))
    ensures Scattered(after, done[q := v], k, dim)
  {
    ScatterKeys(before, after, done, q, v, k, dim);
    ScatterValues(before, after, done, q, v, k, dim);
  }

  lemma ScatterKeys(before: map<Pos, real>, after: map<Pos, real>, done: Field, q: Pos, v: real, k: Kernel, dim: nat)
    requires KernelOk(k, dim) && AllDim(done, dim) && |q| == dim
    requires before.Keys == Reach(done.Keys, k.offsets)
    requires after.Keys == before.Keys + Hits(q, k.offsets, |k.offsets|)
    ensures after.Keys == Reach(done[q := v].Keys, k.offsets)
  {
    ReachInsert(done.Keys, q, k.offsets);
    assert done[q := v].Keys == done.Keys + {q};
  }

  lemma ScatterValues(before: map<Pos, real>, after: map<Pos, real>, done: Field, q: Pos, v: real, k: Kernel, dim: nat)
    requires KernelOk(k, dim) && AllDim(done, dim) && |q| == dim && q !in done
    requires Scattered(before, done, k, dim)
    requires after.Keys == before.Keys + Hits(q, k.offsets, |k.offsets|)
    requires forall p :: p in after ==> |p| == dim && after[p] == Get(before, p) + Sum(HitTerms(q, v, k, p))
    ensures forall p :: p in after ==> |p| == dim && after[p] == Sum(ScatterTerms(done[q := v], k, p))
  {
    forall p | p in after
      ensures |p| == dim && after[p] == Sum(ScatterTerms(done[q := v], k, p))
    {
      ScatterCellDoneAt(before, after, done, q, v, k, dim, p);
    }
  }

  lemma ScatterCellDoneAt(before: map<Pos, real>, after: map<Pos, real>, done: Field, q: Pos, v: real, k: Kernel, dim: nat, p: Pos)
    requires KernelOk(k, dim) && AllDim(done, dim) && |q| == dim && q !in done
    requires Scattered(before, done, k, dim)
    requires after.Keys == before.Keys + Hits(q, k.offsets, |k.offsets|)
    requires forall p :: p in after ==> |p| == dim && after[p] == Get(before, p) + Sum(HitTerms(q, v, k, p))
    requires p in after
    ensures |p| == dim && after[p] == Sum(ScatterTerms(done[q := v], k, p))
  {
    if p !in before {
      ScatterUnreached(done, k, p);
    }
    ScatterInsert(done, q, v, k, p);
  }

  /** Nothing has been scattered to a position no processed cell reaches. */
  lemma ScatterUnreached(done: Field, k: Kernel, p: Pos)
    requires KernelOk(k, |p|) && AllDim(done, |p|)
    requires p !in Reach(done.Keys, k.offsets)
    ensures Sum(ScatterTerms(done, k, p)) == 0.0
  {
    forall n | 0 <= n < |k.offsets|
      ensures ScatterTerms(done, k, p)[n] == 0.0
    {
      var r := Sub(p, k.offsets[n]);
      AddSubInverse(p, k.offsets[n], r);
      assert forall x :: x in done ==> Add(x, k.offsets[n]) in Reach(done.Keys, k.offsets);
    }
    SumZeros(ScatterTerms(done, k, p));
  }

  /** `Parallel.ForEach(aliveCells, ...)` with `convolutionValues.AddOrUpdate`,
      run one live cell after another: the accumulated map holds, at every
      reached position, the sum of the contributions scattered there. */
  method ScatterConvolution(cells: Field, offsets: seq<Pos>, weights: seq<real>, ghost dim: nat)
    returns (convolutionValues: map<Pos, real>)
    requires KernelOk(Kernel(offsets, weights), dim) && AllDim(cells, dim)
    ensures convolutionValues.Keys == Reach(cells.Keys, offsets)
    ensures forall p :: p in convolutionValues ==>
              |p| == dim && convolutionValues[p] == Convolution(Scatter, cells, Kernel(offsets, weights), p)
  {
    ghost var k := Kernel(offsets, weights);
    convolutionValues := map[];
    var todo := cells.Keys;
    ghost var done: Field := map[];
    while todo != {}
      invariant todo <= cells.Keys
      invariant done.Keys == cells.Keys - todo
      invariant forall q :: q in done ==> done[q] == cells[q]
      invariant Scattered(convolutionValues, done, k, dim)
      decreases todo
    {
      var aliveCellPos :| aliveCellPos in todo;
      var aliveCellValue := cells[aliveCellPos];
      ghost var before := convolutionValues;
      convolutionValues := ScatterCell(convolutionValues, aliveCellPos, aliveCellValue, offsets, weights);
      ScatterCellDone(before, convolutionValues, done, aliveCellPos, aliveCellValue, k, dim);
      done := done[aliveCellPos := aliveCellValue];
      todo := todo - {aliveCellPos};
    }
    assert done == cells;
  }

  /** `NextGeneration` of the scattering generator: accumulate the contributions,
      then update every position that received one. */
  method ScatterGeneration(cells: Field, offsets: seq<Pos>, weights: seq<real>, growth: Growth, deltaT: real, ghost dim: nat)
    returns (newAliveCells: Field)
    requires RuleOk(Rule(dim, Kernel(offsets, weights), growth, deltaT)) && AllDim(cells, dim)
    ensures newAliveCells == Step(Scatter, cells, Rule(dim, Kernel(offsets, weights), growth, deltaT))
  {
    var convolutionValues := ScatterConvolution(cells, offsets, weights, dim);
    newAliveCells := UpdatePositions(cells, convolutionValues.Keys, convolutionValues, growth, deltaT);
    UpdateIsStep(Scatter, cells, Rule(dim, Kernel(offsets, weights), growth, deltaT), convolutionValues, newAliveCells);
  }
}
