/** `LeniaDataGenerator3D` of Generator3DApp/Generator3D.cs: the three-dimensional
    generator that scatters every live cell's contributions to its neighbours,
    keeps the index of every kernel offset in `kernelOffsetIndices`, precomputes
    the squared widths in `Run`, stops early when a frame is too slow or the
    field empties, and tags the run `timed_out`, `died`, `lived` or `unstable`. */
module Generator3D {
  import opened Vectors
  import opened Sums
  import opened Field
  import opened Odometer
  import opened Seeding
  import opened Engine
  import opened Kernels
  import opened Frames
  import opened Runs

  /** The numbers `Run` computes before building the kernel. */
  datatype Widths = Widths(kernelSigma: real, growthSigma: real, kernelR0Squared: real,
                           kernelSigmaSquared: real, growthSigmaSquared: real, twoGrowthSigmaSquared: real)

  class LeniaDataGenerator3D {
    // The parameters `Main` may set before `Run`.
    const numFrames: int
    const kernelRadius: int
    const kernelSigmaMultiplier: real
    const growthSigmaMultiplier: real
    const center: real
    const deltaT: real
    const startingAreaSize: int
    const cellSpawnChance: real
    const minInitialValue: real
    const maxInitialValue: real
    const maxFrameTimeSeconds: real
    /** `Math.Exp`, the values `random.NextDouble()` returns, in order, and the
        seconds the stopwatch measures for each frame. */
    const exp: real -> real
    const random: nat -> real
    const elapsed: nat -> real

    var kernelSigma: real
    var growthSigma: real
    var aliveCells: Field
    var kernelValues: array<real>
    var kernelOffsets: seq<Pos>
    var kernelR0Squared: real
    var kernelSigmaSquared: real
    var growthSigmaSquared: real
    var twoGrowthSigmaSquared: real
    var kernelOffsetIndices: map<Pos, int>
    /** How many values have been drawn from `random`. */
    var draws: nat
    /** The frames `SaveFrameToFile` has written, in order. */
    var savedFrames: seq<FrameRecord>

    function CurrentWidths(): Widths
      reads this
    {
      Widths(kernelSigma, growthSigma, kernelR0Squared, kernelSigmaSquared, growthSigmaSquared, twoGrowthSigmaSquared)
    }

    /** The growth curve `GrowthFunction` computes, with the precomputed
        `twoGrowthSigmaSquared` under the fraction. */
    function GrowthCurve(): Growth
      reads this
    {
      Growth(exp, center, twoGrowthSigmaSquared)
    }

    /** What `NextGeneration` applies: the kernel lists, the growth curve and `deltaT`. */
    function UpdateRule(): Rule
      reads this, kernelValues
    {
      Rule(3, Kernel(kernelOffsets, kernelValues[..]), GrowthCurve(), deltaT)
    }

    /** The kernel profile: `exp(-(rSquared - kernelR0Squared) / (2 * kernelSigmaSquared))`. */
    function KernelProfile(): Profile
      reads this
    {
      Shifted(exp, kernelR0Squared, kernelSigmaSquared)
    }

    function SeedParams(): Params
      reads this
    {
      Params(random, cellSpawnChance, minInitialValue, maxInitialValue)
    }

    /** What holds from construction on: the kernel lists pair up, every offset
        listed has its index, and every stored position has three coordinates. */
    ghost predicate Valid()
      reads this, kernelValues
    {
      && ExpOk(exp)
      && KernelOk(UpdateRule().kernel, 3)
      && kernelOffsetIndices == IndexOf(kernelOffsets)
      && AllDim(aliveCells, 3)
    }

    /** What the frame loop needs besides: `Run` has set a growth width that is not zero. */
    ghost predicate Ready()
      reads this, kernelValues
    {
      Valid() && RuleOk(UpdateRule())
    }

    /** Where the frame loop of `PrecomputeFrames` ends when it starts from `start`
        under `rule`. */
    ghost function Tagged(start: Field, rule: Rule): Outcome
    {
      Runs.Run(Counts(Scatter, start, rule), 0, numFrames, elapsed, maxFrameTimeSeconds)
    }

    constructor (numFrames: int, kernelRadius: int, kernelSigmaMultiplier: real, growthSigmaMultiplier: real,
                 center: real, deltaT: real, startingAreaSize: int, cellSpawnChance: real,
                 minInitialValue: real, maxInitialValue: real, maxFrameTimeSeconds: real,
                 exp: real -> real, random: nat -> real, elapsed: nat -> real)
      requires ExpOk(exp)
      ensures this.numFrames == numFrames && this.kernelRadius == kernelRadius
      ensures this.kernelSigmaMultiplier == kernelSigmaMultiplier && this.growthSigmaMultiplier == growthSigmaMultiplier
      ensures this.center == center && this.deltaT == deltaT && this.startingAreaSize == startingAreaSize
      ensures this.cellSpawnChance == cellSpawnChance
      ensures this.minInitialValue == minInitialValue && this.maxInitialValue == maxInitialValue
      ensures this.maxFrameTimeSeconds == maxFrameTimeSeconds
      ensures this.exp == exp && this.random == random && this.elapsed == elapsed
      ensures CurrentWidths() == Widths(0.0, 0.0, 0.0, 0.0, 0.0, 0.0)
      ensures aliveCells == map[] && kernelOffsets == [] && kernelOffsetIndices == map[]
      ensures kernelValues.Length == 0 && draws == 0 && savedFrames == []
      ensures fresh(kernelValues)
      ensures Valid()
    {
      this.numFrames, this.kernelRadius := numFrames, kernelRadius;
      this.kernelSigmaMultiplier, this.growthSigmaMultiplier := kernelSigmaMultiplier, growthSigmaMultiplier;
      this.center, this.deltaT, this.startingAreaSize := center, deltaT, startingAreaSize;
      this.cellSpawnChance, this.minInitialValue, this.maxInitialValue := cellSpawnChance, minInitialValue, maxInitialValue;
      this.maxFrameTimeSeconds := maxFrameTimeSeconds;
      this.exp, this.random, this.elapsed := exp, random, elapsed;
      kernelSigma, growthSigma := 0.0, 0.0;
      kernelR0Squared, kernelSigmaSquared, growthSigmaSquared, twoGrowthSigmaSquared := 0.0, 0.0, 0.0, 0.0;
      aliveCells := map[];
      kernelValues := new real[0];
      kernelOffsets := [];
      kernelOffsetIndices := map[];
      draws := 0;
      savedFrames := [];
      new;
      assert kernelValues[..] == [];
    }

    /** `Run`: set the two widths from the radius and precompute their squares,
        build the kernel, seed the field, then compute and save the frames;
        `behavior` names the directory the frames are moved to. */
    method Run() returns (behavior: string)
      modifies this
      requires Valid() && kernelOffsets == []
      requires kernelRadius != 0 && kernelSigmaMultiplier != 0.0 && growthSigmaMultiplier != 0.0
      ensures kernelSigma == WidthFor(kernelRadius, kernelSigmaMultiplier)
      ensures growthSigma == WidthFor(kernelRadius, growthSigmaMultiplier)
      ensures kernelR0Squared == Square(kernelRadius as real / 2.0)
      ensures kernelSigmaSquared == Square(kernelSigma) && growthSigmaSquared == Square(growthSigma)
      ensures twoGrowthSigmaSquared == 2.0 * growthSigmaSquared
      ensures Ready()
      ensures kernelOffsets == Cube(kernelRadius, 3) && kernelOffsetIndices == IndexOf(kernelOffsets)
      ensures kernelValues[..] == ScaledWeights(KernelProfile(), kernelRadius, 3)
      ensures var seeded := Seed(State(old(aliveCells), old(draws)), StartingBox(startingAreaSize, 3), SeedParams());
              var o := Tagged(seeded.cells, UpdateRule());
              && draws == seeded.draws
              && AllDim(seeded.cells, 3)
              && behavior == o.behavior
              && aliveCells == Generations(Scatter, seeded.cells, UpdateRule())(o.frames)
              && SavedRun(savedFrames, old(savedFrames), o.frames, Generations(Scatter, seeded.cells, UpdateRule()))
    {
      SetWidths();
      ghost var seeded := Seed(State(aliveCells, draws), StartingBox(startingAreaSize, 3), SeedParams());
      InitializeKernel();
      InitializeGame();
      ghost var rule := UpdateRule();
      ghost var o := Tagged(seeded.cells, rule);
      assert aliveCells == seeded.cells && Ready();
      behavior := PrecomputeFrames();
      assert Progress(old(savedFrames), o.frames, seeded.cells, rule);
      assert UpdateRule() == rule;
    }

    /** The first lines of `Run`: both widths are the radius times their multiplier,
        and the squares the kernel profile and the growth curve divide by are
        computed once from them. */
    method SetWidths()
      modifies this
      requires Valid()
      requires kernelRadius != 0 && kernelSigmaMultiplier != 0.0 && growthSigmaMultiplier != 0.0
      ensures kernelSigma == WidthFor(kernelRadius, kernelSigmaMultiplier)
      ensures growthSigma == WidthFor(kernelRadius, growthSigmaMultiplier)
      ensures kernelR0Squared == Square(kernelRadius as real / 2.0)
      ensures kernelSigmaSquared == Square(kernelSigma) && growthSigmaSquared == Square(growthSigma)
      ensures twoGrowthSigmaSquared == 2.0 * growthSigmaSquared
      ensures kernelSigmaSquared != 0.0 && twoGrowthSigmaSquared != 0.0
      ensures aliveCells == old(aliveCells) && kernelOffsets == old(kernelOffsets) && kernelValues == old(kernelValues)
      ensures kernelOffsetIndices == old(kernelOffsetIndices) && draws == old(draws) && savedFrames == old(savedFrames)
      ensures Valid()
    {
      kernelSigma := WidthFor(kernelRadius, kernelSigmaMultiplier);
      growthSigma := WidthFor(kernelRadius, growthSigmaMultiplier);
      kernelR0Squared := Square(kernelRadius as real / 2.0);
      kernelSigmaSquared := Square(kernelSigma);
      growthSigmaSquared := Square(growthSigma);
      twoGrowthSigmaSquared := 2.0 * growthSigmaSquared;
      SquarePositive(kernelSigma);
      SquarePositive(growthSigma);
      assert UpdateRule().kernel == old(UpdateRule().kernel);
    }

    /** `InitializeKernel`: the offsets of [-r, r]^3 appended to `kernelOffsets` in
        lexicographic order, each with its index in a fresh `kernelOffsetIndices`,
        and their weights copied into a fresh `kernelValues` and multiplied there
        by `invSum`, one over their total. */
    method InitializeKernel()
      modifies this
      requires Valid() && kernelOffsets == [] && kernelSigmaSquared != 0.0
      ensures CurrentWidths() == old(CurrentWidths())
      ensures kernelOffsets == Cube(kernelRadius, 3) && kernelOffsetIndices == IndexOf(kernelOffsets)
      ensures fresh(kernelValues)
      ensures kernelValues[..] == ScaledWeights(KernelProfile(), kernelRadius, 3)
      ensures aliveCells == old(aliveCells) && draws == old(draws) && savedFrames == old(savedFrames)
      ensures Valid()
    {
      var pr := KernelProfile();
      kernelOffsets, kernelOffsetIndices, kernelValues := ScaledKernel(kernelRadius, 3, pr);
      assert UpdateRule().kernel == Kernel(kernelOffsets, kernelValues[..]);
    }

    /** `InitializeGame`: a spawn draw at every position of [-halfSize, halfSize)^3,
        and an initial value for each position that spawns. */
    method InitializeGame()
      modifies this
      requires Valid()
      ensures var seeded := Seed(State(old(aliveCells), old(draws)), StartingBox(startingAreaSize, 3), SeedParams());
              aliveCells == seeded.cells && draws == seeded.draws
      ensures kernelOffsets == old(kernelOffsets) && kernelValues == old(kernelValues) && savedFrames == old(savedFrames)
      ensures kernelOffsetIndices == old(kernelOffsetIndices) && CurrentWidths() == old(CurrentWidths())
      ensures Valid()
    {
      var halfSize := HalfSize(startingAreaSize);
      LoopsAreStartingBox(startingAreaSize, 3);
      SeedKeepsDim(State(aliveCells, draws), startingAreaSize, 3, SeedParams());
      aliveCells, draws := SeedLoop(aliveCells, draws, [], halfSize, 2, SeedParams());
    }

    /** After i rounds of the frame loop from `start` under `rule`: frames 0 .. i - 1
        saved after `prefix`, and the field advanced i generations. */
    ghost predicate Progress(prefix: seq<FrameRecord>, i: nat, start: Field, rule: Rule)
      reads this, kernelValues
    {
      && Ready() && UpdateRule() == rule && AllDim(start, 3)
      && SavedRun(savedFrames, prefix, i, Generations(Scatter, start, rule))
      && aliveCells == Generations(Scatter, start, rule)(i)
    }

    /** How many times at most the frame loop of `PrecomputeFrames` runs. */
    function FrameCount(): nat
      reads this
    {
      if numFrames > 0 then numFrames else 0
    }

    /** `PrecomputeFrames`: save the frame and advance the field, stopping after a
        frame slower than `maxFrameTimeSeconds` or one that empties the field; a
        run that does neither is `unstable`. The tag and the frames saved are
        those of `Tagged`. */
    method PrecomputeFrames() returns (behavior: string)
      modifies this
      requires Ready()
      ensures kernelOffsets == old(kernelOffsets) && kernelValues == old(kernelValues) && draws == old(draws)
      ensures kernelOffsetIndices == old(kernelOffsetIndices) && CurrentWidths() == old(CurrentWidths())
      ensures behavior == Tagged(old(aliveCells), old(UpdateRule())).behavior
      ensures Progress(old(savedFrames), Tagged(old(aliveCells), old(UpdateRule())).frames, old(aliveCells), old(UpdateRule()))
    {
      ghost var rule, start, prefix := UpdateRule(), aliveCells, savedFrames;
      ghost var counts := Counts(Scatter, start, rule);
      ghost var target := Tagged(start, rule);
      behavior := "";
      var n := FrameCount();
      var i := 0;
      while i < n
        invariant 0 <= i <= n
        invariant kernelOffsets == old(kernelOffsets) && kernelValues == old(kernelValues) && draws == old(draws)
        invariant kernelOffsetIndices == old(kernelOffsetIndices) && CurrentWidths() == old(CurrentWidths())
        invariant Progress(prefix, i, start, rule)
        invariant behavior == "" && Runs.Run(counts, i, numFrames, elapsed, maxFrameTimeSeconds) == target
      {
        SaveAndAdvance(prefix, i, start, rule);
        CountsAt(Scatter, start, rule, i);
        var stop;
        stop, behavior := Verdict(counts, i, elapsed(i), |aliveCells|);
        if stop {
          break;
        }
        i := i + 1;
      }
      if behavior == "" {
        behavior := "unstable";
      }
    }

    /** The end of one round of the frame loop of `PrecomputeFrames`, after frame i
        took `seconds` and left `count` live cells: stop as `timed_out` after a
        slow frame, stop as `died` (before frame 25) or `lived` (from frame 25
        on) when no cell is left, and go on with no tag otherwise. It is one
        step of `Run`. */
    method Verdict(ghost counts: nat -> nat, i: nat, seconds: real, count: nat) returns (stop: bool, behavior: string)
      requires i < numFrames && seconds == elapsed(i) && count == counts(i)
      ensures stop ==> behavior != "" && Runs.Run(counts, i, numFrames, elapsed, maxFrameTimeSeconds) == Outcome(behavior, i + 1)
      ensures !stop ==> && behavior == ""
                        && Runs.Run(counts, i, numFrames, elapsed, maxFrameTimeSeconds)
                           == Runs.Run(counts, i + 1, numFrames, elapsed, maxFrameTimeSeconds)
    {
      if seconds > maxFrameTimeSeconds {
        return true, "timed_out";
      }
      if count == 0 {
        return true, if i < 25 then "died" else "lived";
      }
      return false, "";
    }

    /** One round of the frame loop of `PrecomputeFrames` up to the stopwatch: save
        frame i, then advance the field one generation. */
    method SaveAndAdvance(ghost prefix: seq<FrameRecord>, i: nat, ghost start: Field, ghost rule: Rule)
      modifies this
      requires Progress(prefix, i, start, rule)
      ensures Progress(prefix, i + 1, start, rule)
      ensures kernelOffsets == old(kernelOffsets) && kernelValues == old(kernelValues) && draws == old(draws)
      ensures kernelOffsetIndices == old(kernelOffsetIndices) && CurrentWidths() == old(CurrentWidths())
    {
      ghost var before, cur := savedFrames, aliveCells;
      SaveFrameToFile(i, aliveCells);
      SavedRunNext(before, savedFrames, prefix, i, Generations(Scatter, start, rule));
      GenerationsNext(Scatter, start, rule, i, cur);
      NextGeneration();
    }

    /** `SaveFrameToFile`: the list of cells of `frameData`, recorded as frame `frameIndex`. */
    method SaveFrameToFile(frameIndex: int, frameData: Field)
      modifies this
      ensures |savedFrames| == |old(savedFrames)| + 1 && savedFrames[..|old(savedFrames)|] == old(savedFrames)
      ensures savedFrames[|old(savedFrames)|].frameIndex == frameIndex
      ensures Listing(savedFrames[|old(savedFrames)|].cells, frameData)
      ensures aliveCells == old(aliveCells) && kernelOffsets == old(kernelOffsets) && kernelValues == old(kernelValues)
      ensures kernelOffsetIndices == old(kernelOffsetIndices) && CurrentWidths() == old(CurrentWidths())
      ensures draws == old(draws)
    {
      var cells := CellList(frameData);
      savedFrames := savedFrames + [FrameRecord(frameIndex, cells)];
    }

    /** `NextGeneration`: the scattered step of the field. */
    method NextGeneration()
      modifies this
      requires Ready()
      ensures kernelOffsets == old(kernelOffsets) && kernelValues == old(kernelValues)
      ensures kernelOffsetIndices == old(kernelOffsetIndices) && CurrentWidths() == old(CurrentWidths())
      ensures draws == old(draws) && savedFrames == old(savedFrames)
      ensures Ready() && UpdateRule() == old(UpdateRule())
      ensures aliveCells == Step(Scatter, old(aliveCells), UpdateRule())
    {
      aliveCells := ScatterGeneration(aliveCells, kernelOffsets, kernelValues[..], GrowthCurve(), deltaT, 3);
    }
  }
}
