/** `LeniaDataGenerator3D` of Generator3DApp/Generator3D.cs.cs: the
    three-dimensional generator that gathers the convolution at every position it
    updates, stops early when a frame is too slow or the field empties, keeps a
    count of frames whose cell count barely changed, and files the run under
    `unstable`, `dead` or `stable`. */
module Generator3DStability {
  import opened Vectors
  import opened Sums
  import opened Field
  import opened Odometer
  import opened Seeding
  import opened Engine
  import opened Kernels
  import opened Frames
  import opened Runs

  class LeniaDataGenerator3D {
    // The parameters `Main` may set before `Run`.
    const numFrames: int
    const kernelRadius: int
    const kernelSigmaMultiplier: real
    const growthSigmaMultiplier: real
    const center: real
    const deltaT: real
    const startingAreaSize: int
    const cellSpawnChance: real
    const minInitialValue: real
    const maxInitialValue: real
    const maxFrameTimeSeconds: real
    /** `Math.Exp`, `Math.Sqrt`, the values `random.NextDouble()` returns, in order,
        and the seconds the stopwatch measures for each frame. */
    const exp: real -> real
    const sqrt: real -> real
    const random: nat -> real
    const elapsed: nat -> real

    var kernelSigma: real
    var growthSigma: real
    var aliveCells: Field
    var kernelValues: array<real>
    var kernelOffsets: seq<Pos>
    /** How many values have been drawn from `random`. */
    var draws: nat
    /** The frames `SaveFrameToFile` has written, in order. */
    var savedFrames: seq<FrameRecord>

    /** The growth curve `GrowthFunction` computes: `2 * growthSigma * growthSigma` under the fraction. */
    function GrowthCurve(): Growth
      reads this
    {
      Growth(exp, center, TwiceSquare(growthSigma))
    }

    /** What `NextGeneration` applies: the kernel lists, the growth curve and `deltaT`. */
    function UpdateRule(): Rule
      reads this, kernelValues
    {
      Rule(3, Kernel(kernelOffsets, kernelValues[..]), GrowthCurve(), deltaT)
    }

    /** The kernel profile: `r0 = kernelRadius / 2` and the width `kernelSigma`. */
    function KernelProfile(): Profile
      reads this
    {
      Ring(exp, sqrt, kernelRadius as real / 2.0, kernelSigma)
    }

    function SeedParams(): Params
      reads this
    {
      Params(random, cellSpawnChance, minInitialValue, maxInitialValue)
    }

    /** What holds from construction on: the kernel lists pair up and every stored
        position has three coordinates. */
    ghost predicate Valid()
      reads this, kernelValues
    {
      && ExpOk(exp)
      && KernelOk(UpdateRule().kernel, 3)
      && AllDim(aliveCells, 3)
    }

    /** What the frame loop needs besides: `Run` has set a growth width that is not zero. */
    ghost predicate Ready()
      reads this, kernelValues
    {
      Valid() && RuleOk(UpdateRule())
    }

    /** Where the frame loop of `PrecomputeFrames` ends when it starts from `start`
        under `rule`: `endState` starting as `stable`, `previousCellCount` as the
        number of live cells and `stableFrameCount` as 0. */
    ghost function Classification(start: Field, rule: Rule): StabilityOutcome
    {
      StabilityRun(Counts(Gather, start, rule), 0, numFrames, elapsed, maxFrameTimeSeconds, "stable", |start|, 0)
    }

    constructor (numFrames: int, kernelRadius: int, kernelSigmaMultiplier: real, growthSigmaMultiplier: real,
                 center: real, deltaT: real, startingAreaSize: int, cellSpawnChance: real,
                 minInitialValue: real, maxInitialValue: real, maxFrameTimeSeconds: real,
                 exp: real -> real, sqrt: real -> real, random: nat -> real, elapsed: nat -> real)
      requires ExpOk(exp)
      ensures this.numFrames == numFrames && this.kernelRadius == kernelRadius
      ensures this.kernelSigmaMultiplier == kernelSigmaMultiplier && this.growthSigmaMultiplier == growthSigmaMultiplier
      ensures this.center == center && this.deltaT == deltaT && this.startingAreaSize == startingAreaSize
      ensures this.cellSpawnChance == cellSpawnChance
      ensures this.minInitialValue == minInitialValue && this.maxInitialValue == maxInitialValue
      ensures this.maxFrameTimeSeconds == maxFrameTimeSeconds
      ensures this.exp == exp && this.sqrt == sqrt && this.random == random && this.elapsed == elapsed
      ensures kernelSigma == 0.0 && growthSigma == 0.0
      ensures aliveCells == map[] && kernelOffsets == [] && kernelValues.Length == 0 && draws == 0 && savedFrames == []
      ensures fresh(kernelValues)
      ensures Valid()
    {
      this.numFrames, this.kernelRadius := numFrames, kernelRadius;
      this.kernelSigmaMultiplier, this.growthSigmaMultiplier := kernelSigmaMultiplier, growthSigmaMultiplier;
      this.center, this.deltaT, this.startingAreaSize := center, deltaT, startingAreaSize;
      this.cellSpawnChance, this.minInitialValue, this.maxInitialValue := cellSpawnChance, minInitialValue, maxInitialValue;
      this.maxFrameTimeSeconds := maxFrameTimeSeconds;
      this.exp, this.sqrt, this.random, this.elapsed := exp, sqrt, random, elapsed;
      kernelSigma, growthSigma := 0.0, 0.0;
      aliveCells := map[];
      kernelValues := new real[0];
      kernelOffsets := [];
      draws := 0;
      savedFrames := [];
      new;
      assert kernelValues[..] == [];
    }

    /** `Run`: set the two widths from the radius, build the kernel, seed the field,
        then compute and save the frames; `endState` names the directory the frames
        are moved to. */
    method Run() returns (endState: string)
      modifies this
      requires Valid() && kernelOffsets == []
      requires kernelRadius != 0 && kernelSigmaMultiplier != 0.0 && growthSigmaMultiplier != 0.0
      ensures kernelSigma == WidthFor(kernelRadius, kernelSigmaMultiplier)
      ensures growthSigma == WidthFor(kernelRadius, growthSigmaMultiplier)
      ensures Ready()
      ensures kernelOffsets == Cube(kernelRadius, 3)
      ensures kernelValues[..] == CubeWeights(KernelProfile(), kernelRadius, 3)
      ensures var seeded := Seed(State(old(aliveCells), old(draws)), StartingBox(startingAreaSize, 3), SeedParams());
              var o := Classification(seeded.cells, UpdateRule());
              && draws == seeded.draws
              && AllDim(seeded.cells, 3)
              && endState == o.endState
              && aliveCells == Generations(Gather, seeded.cells, UpdateRule())(o.frames)
              && SavedRun(savedFrames, old(savedFrames), o.frames, Generations(Gather, seeded.cells, UpdateRule()))
    {
      kernelSigma := WidthFor(kernelRadius, kernelSigmaMultiplier);
      growthSigma := WidthFor(kernelRadius, growthSigmaMultiplier);
      TwiceSquarePositive(growthSigma);
      ghost var seeded := Seed(State(aliveCells, draws), StartingBox(startingAreaSize, 3), SeedParams());
      InitializeKernel();
      InitializeGame();
      ghost var rule := UpdateRule();
      assert aliveCells == seeded.cells && Ready();
      endState := PrecomputeFrames();
      assert Progress(old(savedFrames), Classification(seeded.cells, rule).frames, seeded.cells, rule);
    }

    /** `InitializeKernel`: the offsets of [-r, r]^3 appended to `kernelOffsets` in
        lexicographic order, and their normalised weights in a fresh `kernelValues`. */
    method InitializeKernel()
      modifies this
      requires Valid() && kernelSigma != 0.0
      ensures kernelSigma == old(kernelSigma) && growthSigma == old(growthSigma)
      ensures kernelOffsets == old(kernelOffsets) + Cube(kernelRadius, 3)
      ensures fresh(kernelValues)
      ensures kernelValues[..] == CubeWeights(KernelProfile(), kernelRadius, 3)
      ensures aliveCells == old(aliveCells) && draws == old(draws) && savedFrames == old(savedFrames)
      ensures old(kernelOffsets) == [] ==> Valid()
    {
      kernelOffsets, kernelValues := DividedKernel(kernelOffsets, kernelRadius, 3, KernelProfile());
      CubeKernelOk(kernelRadius, 3, kernelValues[..]);
    }

    /** `InitializeGame`: a spawn draw at every position of [-halfSize, halfSize)^3,
        and an initial value for each position that spawns. */
    method InitializeGame()
      modifies this
      requires Valid()
      ensures var seeded := Seed(State(old(aliveCells), old(draws)), StartingBox(startingAreaSize, 3), SeedParams());
              aliveCells == seeded.cells && draws == seeded.draws
      ensures kernelOffsets == old(kernelOffsets) && kernelValues == old(kernelValues) && savedFrames == old(savedFrames)
      ensures kernelSigma == old(kernelSigma) && growthSigma == old(growthSigma)
      ensures Valid()
    {
      var halfSize := HalfSize(startingAreaSize);
      LoopsAreStartingBox(startingAreaSize, 3);
      SeedKeepsDim(State(aliveCells, draws), startingAreaSize, 3, SeedParams());
      aliveCells, draws := SeedLoop(aliveCells, draws, [], halfSize, 2, SeedParams());
    }

    /** After i rounds of the frame loop from `start` under `rule`: frames 0 .. i - 1
        saved after `prefix`, and the field advanced i generations. */
    ghost predicate Progress(prefix: seq<FrameRecord>, i: nat, start: Field, rule: Rule)
      reads this, kernelValues
    {
      && Ready() && UpdateRule() == rule && AllDim(start, 3)
      && SavedRun(savedFrames, prefix, i, Generations(Gather, start, rule))
      && aliveCells == Generations(Gather, start, rule)(i)
    }

    /** How many times at most the frame loop of `PrecomputeFrames` runs. */
    function FrameCount(): nat
      reads this
    {
      if numFrames > 0 then numFrames else 0
    }

    /** `PrecomputeFrames`: save the frame and advance the field, stopping after a
        frame slower than `maxFrameTimeSeconds` (`unstable`) or one that empties
        the field (`dead`); in between, count the frames whose cell count is within
        5 of the previous one. The frames saved and the state reached are those of
        `Classification`. */
    method PrecomputeFrames() returns (endState: string)
      modifies this
      requires Ready()
      ensures kernelOffsets == old(kernelOffsets) && kernelValues == old(kernelValues) && draws == old(draws)
      ensures kernelSigma == old(kernelSigma) && growthSigma == old(growthSigma)
      ensures endState == Classification(old(aliveCells), old(UpdateRule())).endState
      ensures Progress(old(savedFrames), Classification(old(aliveCells), old(UpdateRule())).frames, old(aliveCells), old(UpdateRule()))
    {
      ghost var rule, start, prefix := UpdateRule(), aliveCells, savedFrames;
      ghost var counts := Counts(Gather, start, rule);
      ghost var target := Classification(start, rule);
      endState := "stable";
      var previousCellCount := |aliveCells|;
      var stableFrameCount := 0;
      var n := FrameCount();
      var i := 0;
      while i < n
        invariant 0 <= i <= n
        invariant kernelOffsets == old(kernelOffsets) && kernelValues == old(kernelValues) && draws == old(draws)
        invariant kernelSigma == old(kernelSigma) && growthSigma == old(growthSigma)
        invariant Progress(prefix, i, start, rule)
        invariant StabilityRun(counts, i, numFrames, elapsed, maxFrameTimeSeconds, endState, previousCellCount, stableFrameCount) == target
      {
        SaveAndAdvance(prefix, i, start, rule);
        CountsAt(Gather, start, rule, i);
        var stop;
        stop, endState, previousCellCount, stableFrameCount :=
          Verdict(counts, i, elapsed(i), |aliveCells|, endState, previousCellCount, stableFrameCount);
        if stop {
          break;
        }
        i := i + 1;
      }
    }

    /** The end of one round of the frame loop of `PrecomputeFrames`, after frame i
        took `seconds` and left `count` live cells: stop as `unstable` after a slow
        frame, stop as `dead` when no cell is left, and otherwise update the
        counter of similar frames and the previous count. It is one step of
        `StabilityRun`: when it stops, the run ends here with the state it
        returns; when it goes on, the run goes on from frame i + 1 with the
        variables it returns. */
    method Verdict(ghost counts: nat -> nat, i: nat, seconds: real, count: nat,
                   endState: string, previousCellCount: int, stableFrameCount: int)
      returns (stop: bool, nextState: string, nextCellCount: int, nextStableCount: int)
      requires i < numFrames && seconds == elapsed(i) && count == counts(i)
      ensures var o := StabilityRun(counts, i, numFrames, elapsed, maxFrameTimeSeconds, endState, previousCellCount, stableFrameCount);
              && (stop ==> o == StabilityOutcome(nextState, i + 1, nextCellCount, nextStableCount))
              && (!stop ==> o == StabilityRun(counts, i + 1, numFrames, elapsed, maxFrameTimeSeconds, nextState, nextCellCount, nextStableCount))
    {
      stop, nextState, nextCellCount, nextStableCount := false, endState, previousCellCount, stableFrameCount;
      if seconds > maxFrameTimeSeconds {
        return true, "unstable", previousCellCount, stableFrameCount;
      }
      if count == 0 {
        return true, "dead", previousCellCount, stableFrameCount;
      }
      if Abs(count - previousCellCount) <= 5 {
        nextStableCount := stableFrameCount + 1;
        if nextStableCount >= 10 {
          nextState := "stable";
        }
      } else {
        nextStableCount := 0;
      }
      nextCellCount := count;
    }

    /** One round of the frame loop of `PrecomputeFrames` up to the stopwatch: save
        frame i, then advance the field one generation. */
    method SaveAndAdvance(ghost prefix: seq<FrameRecord>, i: nat, ghost start: Field, ghost rule: Rule)
      modifies this
      requires Progress(prefix, i, start, rule)
      ensures Progress(prefix, i + 1, start, rule)
      ensures kernelOffsets == old(kernelOffsets) && kernelValues == old(kernelValues) && draws == old(draws)
      ensures kernelSigma == old(kernelSigma) && growthSigma == old(growthSigma)
    {
      ghost var before, cur := savedFrames, aliveCells;
      SaveFrameToFile(i, aliveCells);
      SavedRunNext(before, savedFrames, prefix, i, Generations(Gather, start, rule));
      GenerationsNext(Gather, start, rule, i, cur);
      NextGeneration();
    }

    /** `SaveFrameToFile`: the list of cells of `frameData`, recorded as frame `frameIndex`. */
    method SaveFrameToFile(frameIndex: int, frameData: Field)
      modifies this
      ensures |savedFrames| == |old(savedFrames)| + 1 && savedFrames[..|old(savedFrames)|] == old(savedFrames)
      ensures savedFrames[|old(savedFrames)|].frameIndex == frameIndex
      ensures Listing(savedFrames[|old(savedFrames)|].cells, frameData)
      ensures aliveCells == old(aliveCells) && kernelOffsets == old(kernelOffsets) && kernelValues == old(kernelValues)
      ensures kernelSigma == old(kernelSigma) && growthSigma == old(growthSigma) && draws == old(draws)
    {
      var cells := CellList(frameData);
      savedFrames := savedFrames + [FrameRecord(frameIndex, cells)];
    }

    /** `NextGeneration`: the gathered step of the field. */
    method NextGeneration()
      modifies this
      requires Ready()
      ensures kernelOffsets == old(kernelOffsets) && kernelValues == old(kernelValues)
      ensures kernelSigma == old(kernelSigma) && growthSigma == old(growthSigma)
      ensures draws == old(draws) && savedFrames == old(savedFrames)
      ensures Ready() && UpdateRule() == old(UpdateRule())
      ensures aliveCells == Step(Gather, old(aliveCells), UpdateRule())
    {
      aliveCells := GatherGeneration(aliveCells, kernelOffsets, kernelValues[..], GrowthCurve(), deltaT, 3);
    }
  }
}
