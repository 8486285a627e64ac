/** `LeniaDataGenerator4D` (Generator4DApp/Generator4D.cs): the four-dimensional
    generator. Its two widths are set by `Run` from the kernel radius and two
    multipliers; it gathers the convolution at every position it updates and
    saves a fixed number of frames. */
module Generator4D {
  import opened Vectors
  import opened Sums
  import opened Field
  import opened Odometer
  import opened Seeding
  import opened Engine
  import opened Kernels
  import opened Frames
  import opened Runs

  class LeniaDataGenerator4D {
    // The parameters `Main` may set before `Run`.
    const numFrames: int
    const kernelRadius: int
    const kernelSigmaMultiplier: real
    const growthSigmaMultiplier: real
    const center: real
    const deltaT: real
    const startingAreaSize: int
    const cellSpawnChance: real
    const minInitialValue: real
    const maxInitialValue: real
    /** `Math.Exp`, `Math.Sqrt`, and the values `random.NextDouble()` returns, in order. */
    const exp: real -> real
    const sqrt: real -> real
    const random: nat -> real

    var kernelSigma: real
    var growthSigma: real
    var aliveCells: Field
    var kernelValues: array<real>
    var kernelOffsets: seq<Pos>
    /** How many values have been drawn from `random`. */
    var draws: nat
    /** The frames `SaveFrameToFile` has written, in order. */
    var savedFrames: seq<FrameRecord>

    /** The growth curve `GrowthFunction` computes: `2 * growthSigma * growthSigma` under the fraction. */
    function GrowthCurve(): Growth
      reads this
    {
      Growth(exp, center, TwiceSquare(growthSigma))
    }

    /** What `NextGeneration` applies: the kernel lists, the growth curve and `deltaT`. */
    function UpdateRule(): Rule
      reads this, kernelValues
    {
      Rule(4, Kernel(kernelOffsets, kernelValues[..]), GrowthCurve(), deltaT)
    }

    /** The kernel profile: `r0 = kernelRadius / 2` and the width `kernelSigma`. */
    function KernelProfile(): Profile
      reads this
    {
      Ring(exp, sqrt, kernelRadius as real / 2.0, kernelSigma)
    }

    function SeedParams(): Params
      reads this
    {
      Params(random, cellSpawnChance, minInitialValue, maxInitialValue)
    }

    /** What holds from construction on: the kernel lists pair up and every stored
        position has four coordinates. */
    ghost predicate Valid()
      reads this, kernelValues
    {
      && ExpOk(exp)
      && KernelOk(UpdateRule().kernel, 4)
      && AllDim(aliveCells, 4)
    }

    /** What the frame loop needs besides: `Run` has set a growth width that is not zero. */
    ghost predicate Ready()
      reads this, kernelValues
    {
      Valid() && RuleOk(UpdateRule())
    }

    constructor (numFrames: int, kernelRadius: int, kernelSigmaMultiplier: real, growthSigmaMultiplier: real,
                 center: real, deltaT: real, startingAreaSize: int, cellSpawnChance: real,
                 minInitialValue: real, maxInitialValue: real,
                 exp: real -> real, sqrt: real -> real, random: nat -> real)
      requires ExpOk(exp)
      ensures this.numFrames == numFrames && this.kernelRadius == kernelRadius
      ensures this.kernelSigmaMultiplier == kernelSigmaMultiplier && this.growthSigmaMultiplier == growthSigmaMultiplier
      ensures this.center == center && this.deltaT == deltaT && this.startingAreaSize == startingAreaSize
      ensures this.cellSpawnChance == cellSpawnChance
      ensures this.minInitialValue == minInitialValue && this.maxInitialValue == maxInitialValue
      ensures this.exp == exp && this.sqrt == sqrt && this.random == random
      ensures kernelSigma == 0.0 && growthSigma == 0.0
      ensures aliveCells == map[] && kernelOffsets == [] && kernelValues.Length == 0 && draws == 0 && savedFrames == []
      ensures fresh(kernelValues)
      ensures Valid()
    {
      this.numFrames, this.kernelRadius := numFrames, kernelRadius;
      this.kernelSigmaMultiplier, this.growthSigmaMultiplier := kernelSigmaMultiplier, growthSigmaMultiplier;
      this.center, this.deltaT, this.startingAreaSize := center, deltaT, startingAreaSize;
      this.cellSpawnChance, this.minInitialValue, this.maxInitialValue := cellSpawnChance, minInitialValue, maxInitialValue;
      this.exp, this.sqrt, this.random := exp, sqrt, random;
      kernelSigma, growthSigma := 0.0, 0.0;
      aliveCells := map[];
      kernelValues := new real[0];
      kernelOffsets := [];
      draws := 0;
      savedFrames := [];
      new;
      assert kernelValues[..] == [];
    }

    /** `Run`: set the two widths from the radius, build the kernel, seed the field,
        then compute and save the frames. */
    method Run()
      modifies this
      requires Valid() && kernelOffsets == []
      requires kernelRadius != 0 && kernelSigmaMultiplier != 0.0 && growthSigmaMultiplier != 0.0
      ensures kernelSigma == WidthFor(kernelRadius, kernelSigmaMultiplier)
      ensures growthSigma == WidthFor(kernelRadius, growthSigmaMultiplier)
      ensures Ready()
      ensures kernelOffsets == Cube(kernelRadius, 4)
      ensures kernelValues[..] == CubeWeights(KernelProfile(), kernelRadius, 4)
      ensures var seeded := Seed(State(old(aliveCells), old(draws)), StartingBox(startingAreaSize, 4), SeedParams());
              && draws == seeded.draws
              && AllDim(seeded.cells, 4)
              && aliveCells == Generations(Gather, seeded.cells, UpdateRule())(FrameCount())
              && SavedRun(savedFrames, old(savedFrames), FrameCount(), Generations(Gather, seeded.cells, UpdateRule()))
    {
      kernelSigma := WidthFor(kernelRadius, kernelSigmaMultiplier);
      growthSigma := WidthFor(kernelRadius, growthSigmaMultiplier);
      TwiceSquarePositive(growthSigma);
      ghost var seeded := Seed(State(aliveCells, draws), StartingBox(startingAreaSize, 4), SeedParams());
      InitializeKernel();
      InitializeGame();
      ghost var rule := UpdateRule();
      assert aliveCells == seeded.cells && Ready();
      PrecomputeFrames();
      assert Progress(old(savedFrames), FrameCount(), seeded.cells, rule);
    }

    /** `InitializeKernel`: the offsets of [-r, r]^4 appended to `kernelOffsets` in
        lexicographic order, and their normalised weights in a fresh `kernelValues`. */
    method InitializeKernel()
      modifies this
      requires Valid() && kernelSigma != 0.0
      ensures kernelSigma == old(kernelSigma) && growthSigma == old(growthSigma)
      ensures kernelOffsets == old(kernelOffsets) + Cube(kernelRadius, 4)
      ensures fresh(kernelValues)
      ensures kernelValues[..] == CubeWeights(KernelProfile(), kernelRadius, 4)
      ensures aliveCells == old(aliveCells) && draws == old(draws) && savedFrames == old(savedFrames)
      ensures old(kernelOffsets) == [] ==> Valid()
    {
      kernelOffsets, kernelValues := DividedKernel(kernelOffsets, kernelRadius, 4, KernelProfile());
      CubeKernelOk(kernelRadius, 4, kernelValues[..]);
    }

    /** `InitializeGame`: a spawn draw at every position of [-halfSize, halfSize)^4,
        and an initial value for each position that spawns. */
    method InitializeGame()
      modifies this
      requires Valid()
      ensures var seeded := Seed(State(old(aliveCells), old(draws)), StartingBox(startingAreaSize, 4), SeedParams());
              aliveCells == seeded.cells && draws == seeded.draws
      ensures kernelOffsets == old(kernelOffsets) && kernelValues == old(kernelValues) && savedFrames == old(savedFrames)
      ensures kernelSigma == old(kernelSigma) && growthSigma == old(growthSigma)
      ensures Valid()
    {
      var halfSize := HalfSize(startingAreaSize);
      LoopsAreStartingBox(startingAreaSize, 4);
      SeedKeepsDim(State(aliveCells, draws), startingAreaSize, 4, SeedParams());
      aliveCells, draws := SeedLoop(aliveCells, draws, [], halfSize, 3, SeedParams());
    }

    /** After i rounds of the frame loop from `start` under `rule`: frames 0 .. i - 1
        saved after `prefix`, and the field advanced i generations. */
    ghost predicate Progress(prefix: seq<FrameRecord>, i: nat, start: Field, rule: Rule)
      reads this, kernelValues
    {
      && Ready() && UpdateRule() == rule && AllDim(start, 4)
      && SavedRun(savedFrames, prefix, i, Generations(Gather, start, rule))
      && aliveCells == Generations(Gather, start, rule)(i)
    }

    /** How many times the frame loop of `PrecomputeFrames` runs. */
    function FrameCount(): nat
      reads this
    {
      if numFrames > 0 then numFrames else 0
    }

    /** `PrecomputeFrames`: `numFrames` times, save the frame and advance the field. */
    method PrecomputeFrames()
      modifies this
      requires Ready()
      ensures kernelOffsets == old(kernelOffsets) && kernelValues == old(kernelValues) && draws == old(draws)
      ensures kernelSigma == old(kernelSigma) && growthSigma == old(growthSigma)
      ensures Progress(old(savedFrames), FrameCount(), old(aliveCells), old(UpdateRule()))
    {
      ghost var rule, start, prefix := UpdateRule(), aliveCells, savedFrames;
      var n := FrameCount();
      var i := 0;
      while i < n
        invariant 0 <= i <= n
        invariant kernelOffsets == old(kernelOffsets) && kernelValues == old(kernelValues) && draws == old(draws)
        invariant kernelSigma == old(kernelSigma) && growthSigma == old(growthSigma)
        invariant Progress(prefix, i, start, rule)
      {
        SaveAndAdvance(prefix, i, start, rule);
        i := i + 1;
      }
    }

    /** One round of the frame loop of `PrecomputeFrames`: save frame i, then
        advance the field one generation. */
    method SaveAndAdvance(ghost prefix: seq<FrameRecord>, i: nat, ghost start: Field, ghost rule: Rule)
      modifies this
      requires Progress(prefix, i, start, rule)
      ensures Progress(prefix, i + 1, start, rule)
      ensures kernelOffsets == old(kernelOffsets) && kernelValues == old(kernelValues) && draws == old(draws)
      ensures kernelSigma == old(kernelSigma) && growthSigma == old(growthSigma)
    {
      ghost var before, cur := savedFrames, aliveCells;
      SaveFrameToFile(i, aliveCells);
      SavedRunNext(before, savedFrames, prefix, i, Generations(Gather, start, rule));
      GenerationsNext(Gather, start, rule, i, cur);
      NextGeneration();
    }

    /** `SaveFrameToFile`: the cell array of `frameData`, recorded as frame `frameIndex`. */
    method SaveFrameToFile(frameIndex: int, frameData: Field)
      modifies this
      ensures |savedFrames| == |old(savedFrames)| + 1 && savedFrames[..|old(savedFrames)|] == old(savedFrames)
      ensures savedFrames[|old(savedFrames)|].frameIndex == frameIndex
      ensures Listing(savedFrames[|old(savedFrames)|].cells, frameData)
      ensures aliveCells == old(aliveCells) && kernelOffsets == old(kernelOffsets) && kernelValues == old(kernelValues)
      ensures kernelSigma == old(kernelSigma) && growthSigma == old(growthSigma) && draws == old(draws)
    {
      var cells := CellArray(frameData);
      savedFrames := savedFrames + [FrameRecord(frameIndex, cells[..])];
    }

    /** `NextGeneration`: the gathered step of the field. */
    method NextGeneration()
      modifies this
      requires Ready()
      ensures kernelOffsets == old(kernelOffsets) && kernelValues == old(kernelValues)
      ensures kernelSigma == old(kernelSigma) && growthSigma == old(growthSigma)
      ensures draws == old(draws) && savedFrames == old(savedFrames)
      ensures Ready() && UpdateRule() == old(UpdateRule())
      ensures aliveCells == Step(Gather, old(aliveCells), UpdateRule())
    {
      aliveCells := GatherGeneration(aliveCells, kernelOffsets, kernelValues[..], GrowthCurve(), deltaT, 4);
    }
  }
}
