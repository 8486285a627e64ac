/** `LeniaDataGenerator2D` (Generator2DApp/Generator2DApp.cs): the two-dimensional
    generator. It gathers the convolution at every position it updates and
    saves a fixed number of frames. */
module Generator2D {
  import opened Vectors
  import opened Sums
  import opened Field
  import opened Odometer
  import opened Seeding
  import opened Engine
  import opened Kernels
  import opened Frames
  import opened Runs

  class LeniaDataGenerator2D {
    // The parameters `Main` may set before `Run`.
    const numFrames: int
    const kernelRadius: int
    const startingAreaSize: int
    const minInitialValue: real
    const maxInitialValue: real
    const cellSpawnChance: real
    const deltaT: real
    const center: real
    const sigma: real
    /** `Math.Exp`, `Math.Sqrt`, and the values `random.NextDouble()` returns, in order. */
    const exp: real -> real
    const sqrt: real -> real
    const random: nat -> real

    var aliveCells: Field
    var kernelOffsets: seq<Pos>
    var kernelValues: array<real>
    /** How many values have been drawn from `random`. */
    var draws: nat
    /** The frames `SaveFrameToFile` has written, in order. */
    var savedFrames: seq<FrameRecord>

    /** The growth curve `GrowthFunction` computes: `2 * sigma * sigma` under the fraction. */
    function GrowthCurve(): Growth
      reads this
    {
      Growth(exp, center, TwiceSquare(sigma))
    }

    /** What `NextGeneration` applies: the kernel lists, the growth curve and `deltaT`. */
    function UpdateRule(): Rule
      reads this, kernelValues
    {
      Rule(2, Kernel(kernelOffsets, kernelValues[..]), GrowthCurve(), deltaT)
    }

    /** The kernel profile: `r0 = kernelRadius / 2` and the fixed `sigmaK = kernelRadius / 4`. */
    function KernelProfile(): Profile
      reads this
    {
      Ring(exp, sqrt, kernelRadius as real / 2.0, kernelRadius as real / 4.0)
    }

    function SeedParams(): Params
      reads this
    {
      Params(random, cellSpawnChance, minInitialValue, maxInitialValue)
    }

    ghost predicate Valid()
      reads this, kernelValues
    {
      && ExpOk(exp)
      && kernelRadius != 0
      && RuleOk(UpdateRule())
      && AllDim(aliveCells, 2)
    }

    constructor (numFrames: int, kernelRadius: int, startingAreaSize: int, minInitialValue: real, maxInitialValue: real,
                 cellSpawnChance: real, deltaT: real, center: real, sigma: real,
                 exp: real -> real, sqrt: real -> real, random: nat -> real)
      requires ExpOk(exp) && kernelRadius != 0 && sigma != 0.0
      ensures this.numFrames == numFrames && this.kernelRadius == kernelRadius && this.startingAreaSize == startingAreaSize
      ensures this.minInitialValue == minInitialValue && this.maxInitialValue == maxInitialValue
      ensures this.cellSpawnChance == cellSpawnChance && this.deltaT == deltaT && this.center == center && this.sigma == sigma
      ensures this.exp == exp && this.sqrt == sqrt && this.random == random
      ensures aliveCells == map[] && kernelOffsets == [] && kernelValues.Length == 0 && draws == 0 && savedFrames == []
      ensures fresh(kernelValues)
      ensures Valid()
    {
      this.numFrames, this.kernelRadius, this.startingAreaSize := numFrames, kernelRadius, startingAreaSize;
      this.minInitialValue, this.maxInitialValue, this.cellSpawnChance := minInitialValue, maxInitialValue, cellSpawnChance;
      this.deltaT, this.center, this.sigma := deltaT, center, sigma;
      this.exp, this.sqrt, this.random := exp, sqrt, random;
      aliveCells := map[];
      kernelOffsets := [];
      kernelValues := new real[0];
      draws := 0;
      savedFrames := [];
      new;
      TwiceSquarePositive(this.sigma);
      assert UpdateRule().growth == GrowthCurve();
      assert kernelValues[..] == [];
    }

    /** `Run`: build the kernel, seed the field, then compute and save the frames. */
    method Run()
      modifies this
      requires Valid() && kernelOffsets == []
      ensures Valid()
      ensures kernelOffsets == Cube(kernelRadius, 2)
      ensures kernelValues[..] == CubeWeights(KernelProfile(), kernelRadius, 2)
      ensures var seeded := Seed(State(old(aliveCells), old(draws)), StartingBox(startingAreaSize, 2), SeedParams());
              var n := if numFrames > 0 then numFrames else 0;
              && draws == seeded.draws
              && AllDim(seeded.cells, 2)
              && aliveCells == Generations(Gather, seeded.cells, UpdateRule())(n)
              && SavedRun(savedFrames, old(savedFrames), n, Generations(Gather, seeded.cells, UpdateRule()))
    {
      InitializeKernel();
      InitializeGame();
      PrecomputeFrames();
    }

    /** `InitializeKernel`: the offsets of [-r, r]^2 appended to `kernelOffsets` in
        row order, and their normalised weights in a fresh `kernelValues`. */
    method InitializeKernel()
      modifies this
      requires Valid()
      ensures kernelOffsets == old(kernelOffsets) + Cube(kernelRadius, 2)
      ensures fresh(kernelValues)
      ensures kernelValues[..] == CubeWeights(KernelProfile(), kernelRadius, 2)
      ensures aliveCells == old(aliveCells) && draws == old(draws) && savedFrames == old(savedFrames)
      ensures old(kernelOffsets) == [] ==> Valid()
    {
      kernelOffsets, kernelValues := DividedKernel(kernelOffsets, kernelRadius, 2, KernelProfile());
      CubeKernelOk(kernelRadius, 2, kernelValues[..]);
    }

    /** `InitializeGame`: a spawn draw at every position of [-halfSize, halfSize)^2,
        and an initial value for each position that spawns. */
    method InitializeGame()
      modifies this
      requires Valid()
      ensures var seeded := Seed(State(old(aliveCells), old(draws)), StartingBox(startingAreaSize, 2), SeedParams());
              aliveCells == seeded.cells && draws == seeded.draws
      ensures kernelOffsets == old(kernelOffsets) && kernelValues == old(kernelValues) && savedFrames == old(savedFrames)
      ensures Valid()
    {
      var halfSize := HalfSize(startingAreaSize);
      LoopsAreStartingBox(startingAreaSize, 2);
      SeedKeepsDim(State(aliveCells, draws), startingAreaSize, 2, SeedParams());
      aliveCells, draws := SeedLoop(aliveCells, draws, [], halfSize, 1, SeedParams());
    }

    /** After i rounds of the frame loop from `start` under `rule`: frames 0 .. i - 1
        saved after `prefix`, and the field advanced i generations. */
    ghost predicate Progress(prefix: seq<FrameRecord>, i: nat, start: Field, rule: Rule)
      reads this, kernelValues
    {
      && Valid() && UpdateRule() == rule && AllDim(start, 2)
      && SavedRun(savedFrames, prefix, i, Generations(Gather, start, rule))
      && aliveCells == Generations(Gather, start, rule)(i)
    }

    /** How many times the frame loop of `PrecomputeFrames` runs. */
    function FrameCount(): nat
      reads this
    {
      if numFrames > 0 then numFrames else 0
    }

    /** `PrecomputeFrames`: `numFrames` times, save the frame and advance the field. */
    method PrecomputeFrames()
      modifies this
      requires Valid()
      ensures Valid()
      ensures kernelOffsets == old(kernelOffsets) && kernelValues == old(kernelValues) && draws == old(draws)
      ensures Progress(old(savedFrames), FrameCount(), old(aliveCells), old(UpdateRule()))
    {
      ghost var rule, start, prefix := UpdateRule(), aliveCells, savedFrames;
      var n := FrameCount();
      var i := 0;
      while i < n
        invariant 0 <= i <= n
        invariant kernelOffsets == old(kernelOffsets) && kernelValues == old(kernelValues) && draws == old(draws)
        invariant Progress(prefix, i, start, rule)
      {
        SaveAndAdvance(prefix, i, start, rule);
        i := i + 1;
      }
    }

    /** One round of the frame loop of `PrecomputeFrames`: save frame i, then
        advance the field one generation. */
    method SaveAndAdvance(ghost prefix: seq<FrameRecord>, i: nat, ghost start: Field, ghost rule: Rule)
      modifies this
      requires Progress(prefix, i, start, rule)
      ensures Progress(prefix, i + 1, start, rule)
      ensures kernelOffsets == old(kernelOffsets) && kernelValues == old(kernelValues) && draws == old(draws)
    {
      ghost var before, cur := savedFrames, aliveCells;
      SaveFrameToFile(i);
      SavedRunNext(before, savedFrames, prefix, i, Generations(Gather, start, rule));
      GenerationsNext(Gather, start, rule, i, cur);
      NextGeneration();
    }

    /** `SaveFrameToFile`: the cell array of the current field, recorded as frame
        `frameIndex`. */
    method SaveFrameToFile(frameIndex: int)
      modifies this
      requires Valid()
      ensures Valid()
      ensures |savedFrames| == |old(savedFrames)| + 1 && savedFrames[..|old(savedFrames)|] == old(savedFrames)
      ensures savedFrames[|old(savedFrames)|].frameIndex == frameIndex
      ensures Listing(savedFrames[|old(savedFrames)|].cells, aliveCells)
      ensures aliveCells == old(aliveCells) && kernelOffsets == old(kernelOffsets) && kernelValues == old(kernelValues)
      ensures draws == old(draws) && UpdateRule() == old(UpdateRule())
    {
      var cells := CellArray(aliveCells);
      savedFrames := savedFrames + [FrameRecord(frameIndex, cells[..])];
    }

    /** `NextGeneration`: the gathered step of the field. */
    method NextGeneration()
      modifies this
      requires Valid()
      ensures kernelOffsets == old(kernelOffsets) && kernelValues == old(kernelValues)
      ensures draws == old(draws) && savedFrames == old(savedFrames)
      ensures Valid() && UpdateRule() == old(UpdateRule())
      ensures aliveCells == Step(Gather, old(aliveCells), UpdateRule())
    {
      aliveCells := GatherGeneration(aliveCells, kernelOffsets, kernelValues[..], GrowthCurve(), deltaT, 2);
    }
  }
}
