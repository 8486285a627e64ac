# Lenia data generators in Dafny

This project models the discrete core of a sparse continuous cellular automaton
of the Lenia kind. It comes in four hand-copied generators:

- `LeniaDataGenerator2D` (Generator2DApp/Generator2DApp.cs), two dimensions;
- `LeniaDataGenerator3D` (Generator3DApp/Generator3D.cs), three dimensions, with
  a scattered convolution and a `timed_out` / `died` / `lived` / `unstable` tag;
- `LeniaDataGenerator3D` (Generator3DApp/Generator3D.cs.cs), three dimensions,
  with a gathered convolution, a stability counter and an `unstable` / `dead` /
  `stable` end state;
- `LeniaDataGenerator4D` (Generator4DApp/Generator4D.cs), four dimensions.

Each generator keeps a sparse field: a dictionary from integer positions to
activations. It builds a kernel, seeds the field, and then repeats three things:
save the field as a frame, compute the next generation, and decide whether to stop.

The shared skeleton lives in plain modules:

- `Vectors`: positions as fixed-length integer sequences, with `+`, `-` and negation.
- `Odometer`: the lexicographic enumeration of a box `[lo, hi)^D` that the nested
  `for` loops of the kernel and of the seeding walk through.
- `Sums`: sums of real sequences, and scaling and division of their entries.
- `Field`: the field map, `Clamp01`, and the update `clamp01(cur + deltaT * (2g - 1))`.
- `Engine`: the growth curve, the convolution by gather and by scatter, and one
  generation (`Step`) as a specification. The methods that compute a generation
  the way the generators do are proved against `Step`.
- `Kernels`: the kernel offset table over `[-r, r]^D`, its radial weights, the
  offset-to-index dictionary, and the two normalisation passes.
- `Seeding`: the spawn test and the initial value drawn at each position of the
  starting box `[-half, half)^D`.
- `Frames`: the conversion of a field into the list or array of cells a frame holds.
- `Runs`: the generations of a run, and the two classification state machines.

Each generator is a `class` in its own module (`Generator2D`, `Generator3D`,
`Generator3DStability`, `Generator4D`). Its fields are the ones the C# class
updates, and its methods are the C# methods, with `modifies` clauses and
postconditions. Each postcondition gives the new state in terms of the
specification functions above.

`Math.Exp`, `Math.Sqrt`, the values `Random.NextDouble()` returns, and the
seconds a `Stopwatch` measures for each frame are constructor parameters. They
are a function `exp`, a function `sqrt`, a stream `random: nat -> real` with a
draw counter, and a function `elapsed: nat -> real` indexed by frame. Three
properties of `exp` are assumed (`Engine.ExpOk`): its values are positive, it is
at most 1 for arguments that are not positive, and `exp(0) = 1`. A saved frame is
appended to a `savedFrames` sequence instead of being written as JSON.

The main results:

- Every method that computes a generation returns exactly `Step` of the field.
  These are the gathering methods (`CalculateConvolution`, `GatherGeneration`)
  and the scattering methods (`ScatterCell`, `ScatterConvolution`,
  `ScatterGeneration`).
- A stored value always lies in (0.01, 1].
- The support of the next field lies in the live cells shifted by the kernel offsets.
- An empty field stays empty.
- Every live cell is re-evaluated.
- A scattered and a gathered generation agree whenever the kernel is
  mirror-symmetric. Every kernel the generators build is mirror-symmetric.
- The kernel lists the `(2r+1)^D` offsets of `[-r, r]^D` once each, in
  lexicographic order. Its normalised weights sum to 1. The `1/sum` scaling of
  Generator3D.cs gives the same weights as the division of the others.
- Seeded positions lie in `[-half, half)^D`, and seeded values lie between the
  minimum and maximum initial values.
- The tags are characterised completely: which tag, and after how many frames.
  The stability counter never changes the end state.
- `Run` of each class saves exactly the frames of the run, frame i being the
  field after i generations, and returns the tag.

## Model

| member | source | states |
|---|---|---|
| Vectors.EqualsIsIdentity | Generator4DApp/Generator4D.cs:24-30 | the coordinate-wise `Equals` used for dictionary keys holds exactly when the two positions are the same |
| Vectors.AddSubInverse | Generator3DApp/Generator3D.cs:22-25 | `q + o == p` if and only if `q == p - o`, which lets the scattered sum be re-indexed by the kernel |
| Vectors.NegNeg | Generator3DApp/Generator3D.cs:22-25 | mirroring twice gives the offset back |
| Vectors.AddNegIsSub | Generator3DApp/Generator3D.cs:22-25 | adding the mirror image of an offset is subtracting the offset |
| Field.Clamp01 | Generator3DApp/Generator3D.cs:346-349 | the result is in [0, 1]; a value in [0, 1] is kept, one below is 0 and one above is 1 |
| Field.NextValue | Generator3DApp/Generator3D.cs:328-329 | the new value is in [0, 1]; for a non-negative `deltaT` it does not fall when growth is at least 0.5 and does not rise when growth is at most 0.5; it stays put at 0.5 |
| Engine.BellShape | Generator3DApp/Generator3D.cs:340-344 | for a positive `2 sigma^2`, the growth is in (0, 1], it is 1 at `center`, and it is symmetric about `center` |
| Engine.WidthFor | Generator4DApp/Generator4D.cs:157-158 | `kernelRadius * multiplier` is not zero when neither factor is |
| Engine.Step | Generator3DApp/Generator3D.cs.cs:292-320 | the next generation is a field of the same dimension whose values all lie in (0.01, 1] |
| Engine.StepMembers | Generator3DApp/Generator3D.cs.cs:297-317 | a position is in the next field if and only if it is a live cell shifted by a kernel offset and its new value exceeds 0.01; that new value is what is stored |
| Engine.StepEmpty | Generator2DApp/Generator2DApp.cs:197-221 | an empty field, or an empty kernel, gives an empty next field |
| Engine.StepLiveCells | Generator3DApp/Generator3D.cs:302-335 | with the zero offset in the kernel, every live cell is re-evaluated: it survives if and only if its new value exceeds 0.01, and a growth of at least 0.5 keeps it at least as large |
| Engine.ScatterIsReversedGather | Generator3DApp/Generator3D.cs:302-316 | for a mirror-symmetric kernel, the scattered terms at a position are the gathered terms in reverse order |
| Engine.ConvolutionsAgree | Generator3DApp/Generator3D.cs.cs:322-334 | for a mirror-symmetric kernel, the scattered and the gathered convolution at a position are equal |
| Engine.ScatterEqualsGather | Generator3DApp/Generator3D.cs:297-338 | for a mirror-symmetric kernel, a scattered generation equals a gathered one |
| Engine.ReachInsert | Generator3DApp/Generator3D.cs.cs:297-303 | adding one live cell adds exactly its shifted positions to the neighbourhood |
| Engine.AddNeighbors | Generator3DApp/Generator3D.cs.cs:299-302 | the inner loop adds exactly `cellPos + o` for every kernel offset `o` to the set |
| Engine.CollectPositions | Generator3DApp/Generator3D.cs.cs:297-303 | `positionsToUpdate` is exactly the set of live cells shifted by kernel offsets |
| Engine.CalculateConvolution | Generator3DApp/Generator3D.cs.cs:322-334 | the loop returns the gathered convolution: `value(p + o) * weight(o)` summed over the offsets whose neighbour is live, absent neighbours adding 0 |
| Engine.GatherNewValue | Generator3DApp/Generator3D.cs.cs:307-311 | the new value at a position is `clamp01(cur + deltaT * (2 * growth(conv) - 1))` with the gathered convolution, `cur` being 0 for an absent position |
| Engine.UpdatePositions | Generator3DApp/Generator3D.cs:321-335 | the update loop stores, for every position, its new value exactly when that value exceeds 0.01, and nothing else |
| Engine.UpdateIsStep | Generator3DApp/Generator3D.cs:321-335 | updating the neighbourhood with convolutions computed by either strategy gives exactly `Step` |
| Engine.GatherUpdate | Generator3DApp/Generator3D.cs.cs:305-317 | the update loop with a gathered convolution per position keeps exactly the new values above 0.01 |
| Engine.GatherGeneration | Generator3DApp/Generator3D.cs.cs:292-320 | `NextGeneration` of the gathering generators computes exactly the gathered `Step` |
| Engine.ScatterCell | Generator3DApp/Generator3D.cs:304-315 | scattering one live cell adds its shifted positions to the accumulator and adds `value * weight` into each of them |
| Engine.ScatterConvolution | Generator3DApp/Generator3D.cs:299-316 | the accumulator has exactly the shifted positions as keys, and at each of them the sum of `value(q) * weight(o)` over the live `q` and offsets `o` with `q + o = p` |
| Engine.ScatterGeneration | Generator3DApp/Generator3D.cs:297-338 | `NextGeneration` of Generator3D.cs computes exactly the scattered `Step` |
| Odometer.GridLength | Generator4DApp/Generator4D.cs:170-188 | the nested loops over `[lo, hi)^D` visit `(hi - lo)^D` positions |
| Odometer.GridMembers | Generator4DApp/Generator4D.cs:170-188 | a position is visited if and only if it has D coordinates, each in `[lo, hi)` |
| Odometer.GridSorted | Generator3DApp/Generator3D.cs:156-173 | the positions are visited in strictly increasing lexicographic order |
| Odometer.GridDistinct | Generator3DApp/Generator3D.cs:156-173 | no position is visited twice |
| Odometer.CubeMirror | Generator3DApp/Generator3D.cs.cs:139-154 | the offsets of `[-r, r]^D` read backwards are their mirror images |
| Sums.NormalizedSumsToOne | Generator3DApp/Generator3D.cs.cs:157-161 | dividing every entry by a non-zero total gives entries that sum to 1 |
| Sums.SumScaled | Generator3DApp/Generator3D.cs:176-181 | scaling every entry by `c` scales the sum by `c` |
| Sums.ScaledByInverse | Generator3DApp/Generator3D.cs:176-181 | multiplying every entry by `1/c` is dividing it by `c` |
| Sums.SumReverse | Generator3DApp/Generator3D.cs:302-316 | a sum does not depend on the order of its terms read backwards |
| Kernels.SquaredNormNeg | Generator3DApp/Generator3D.cs.cs:145-147 | `i*i + j*j + k*k` is the same for an offset and its mirror image |
| Kernels.RawWeightNeg | Generator2DApp/Generator2DApp.cs:110-111 | the raw weight of an offset depends only on its squared length, so `o` and `-o` weigh the same |
| Kernels.RawSumPositive | Generator3DApp/Generator3D.cs.cs:157-161 | with `exp` positive (`Engine.ExpOk`), the total of the raw weights is positive exactly when there is at least one offset, and 0 otherwise |
| Kernels.KernelLoop | Generator4DApp/Generator4D.cs:170-188 | the nested loops append the offsets of the cube in lexicographic order, with their raw weights, and add those weights to the total |
| Kernels.IndexedKernelLoop | Generator3DApp/Generator3D.cs:156-173 | as `KernelLoop`, and besides `kernelOffsetIndices[o]` is the list index of every offset `o` appended |
| Kernels.IndexOfKeys | Generator3DApp/Generator3D.cs:168 | the index dictionary has the listed offsets as its keys |
| Kernels.IndexOfDistinct | Generator3DApp/Generator3D.cs:168 | for offsets listed once each, the dictionary maps each offset to its position in the list |
| Kernels.ScaleInPlace | Generator3DApp/Generator3D.cs:177-181 | every array entry is multiplied by `invSum` in place |
| Kernels.DivideInto | Generator4DApp/Generator4D.cs:191-195 | the array holds every raw weight divided by the total |
| Kernels.ScaleInto | Generator3DApp/Generator3D.cs:176-181 | the array holds every raw weight times `1/sum` |
| Kernels.CubeWeights | Generator3DApp/Generator3D.cs.cs:139-161 | there is one normalised weight per offset of the cube, and they sum to 1 when the cube is not empty |
| Kernels.ScaledWeights | Generator3DApp/Generator3D.cs:156-181 | there is one `1/sum`-scaled weight per offset of the cube, and they sum to 1 when the cube is not empty |
| Kernels.ScaledWeightsAreCubeWeights | Generator3DApp/Generator3D.cs:176-181 | scaling by `1/sum` and dividing by `sum` give the same weights |
| Kernels.ScaledWeightsSymmetric | Generator3DApp/Generator3D.cs:156-181 | the kernel of Generator3D.cs is mirror-symmetric, so its scattered run is its gathered run |
| Kernels.CubeKernelSymmetric | Generator3DApp/Generator3D.cs.cs:139-154 | the offset table and its raw weights form a mirror-symmetric kernel |
| Kernels.ScaledSymmetric | Generator3DApp/Generator3D.cs.cs:157-161 | normalising a mirror-symmetric kernel leaves it mirror-symmetric |
| Kernels.DividedKernel | Generator4DApp/Generator4D.cs:164-196 | `InitializeKernel` of the dividing generators appends the cube's offsets and returns their normalised weights |
| Kernels.ScaledKernel | Generator3DApp/Generator3D.cs:149-182 | `InitializeKernel` of Generator3D.cs returns the cube's offsets, their index dictionary and their `1/sum`-scaled weights |
| Kernels.CubeSize | Generator3DApp/Generator3D.cs:156-173 | the kernel has `(2r+1)^D` offsets for `r >= 0` |
| Kernels.CubeMembers | Generator3DApp/Generator3D.cs.cs:139-154 | an offset is in the kernel if and only if it has D coordinates, each in `[-r, r]` |
| Kernels.CubeOrder | Generator2DApp/Generator2DApp.cs:106-116 | the kernel lists its offsets once each, in lexicographic (row) order |
| Seeding.HalfSize | Generator3DApp/Generator3D.cs:186 | `startingAreaSize / 2` truncates toward zero, so the box has `2 * half` candidates per axis |
| Seeding.SeedFrame | Generator3DApp/Generator3D.cs:186-202 | seeding only adds the visited positions, keeps every cell it does not visit, gives each new cell a value between the minimum and maximum initial values, and draws one or two random values per position |
| Seeding.SeedNothing | Generator3DApp/Generator3D.cs.cs:174 | with a spawn chance of at most 0 nothing is seeded, and one value is drawn per position |
| Seeding.SeedEverything | Generator3DApp/Generator3D.cs.cs:174-179 | with a spawn chance of at least 1 every position is seeded, and two values are drawn per position |
| Seeding.SeededBox | Generator4DApp/Generator4D.cs:200-219 | every seeded position has D coordinates in `[-half, half)` and a value between the minimum and maximum initial values |
| Seeding.SeedLoop | Generator2DApp/Generator2DApp.cs:128-141 | the nested loops seed the box in lexicographic order, as `Seed` does |
| Seeding.SeedConcat | Generator3DApp/Generator3D.cs:188-201 | seeding one run of positions after another is seeding their concatenation |
| Frames.ListingEntries | Generator4DApp/Generator4D.cs:255-267 | a frame has one cell per stored pair, with the position and value copied |
| Frames.ListingDistinct | Generator4DApp/Generator4D.cs:255-267 | no position appears twice in a frame |
| Frames.ListingPositions | Generator2DApp/Generator2DApp.cs:177-187 | the positions of a frame are exactly the live cells |
| Frames.ListingRoundTrip | Generator3DApp/Generator3D.cs:278-290 | reading the cells of a frame back into a dictionary gives the field |
| Frames.CellList | Generator3DApp/Generator3D.cs:278-290 | the `foreach` loop lists the field |
| Frames.CellArray | Generator4DApp/Generator4D.cs:255-267 | the indexed fill gives an array of length `frameData.Count` that lists the field |
| Runs.Iterate | Generator4DApp/Generator4D.cs:240-245 | after at least one generation every stored value lies in (0.01, 1] |
| Runs.IterateStrategiesAgree | Generator3DApp/Generator3D.cs:297-338 | when scattered and gathered steps agree, so do the fields after any number of generations |
| Runs.CountsAgree | Generator3DApp/Generator3D.cs:232-239 | when the steps agree, the cell counts the classification reads agree |
| Runs.RunOutcome | Generator3DApp/Generator3D.cs:216-248 | the tag is `unstable` if and only if every frame completes in time with live cells; otherwise the run stops at the first frame that is too slow (`timed_out`, checked first) or that empties the field (`died` before frame 25, `lived` from frame 25), having saved that frame and those before it |
| Runs.RunSameCounts | Generator3DApp/Generator3D.cs:216-248 | the classification depends only on the cell counts and times |
| Runs.ScatterRunIsGatherRun | Generator3DApp/Generator3D.cs:205-248 | for a mirror-symmetric kernel, the scattered run has the same fields and the same tag as a gathered one |
| Runs.RunFromEmpty | Generator3DApp/Generator3D.cs:232-239 | an empty starting field is tagged `died` after one frame when that frame is in time |
| Runs.StabilityIgnoresCounter | Generator3DApp/Generator3D.cs.cs:205-250 | starting from `stable`, the end state is `unstable` after a slow frame, `dead` after an emptied field and `stable` otherwise, at the same frame the tags of Generator3D.cs would give; the stability counter changes neither |
| Runs.StabilityCounter | Generator3DApp/Generator3D.cs.cs:235-248 | the counter stays between 0 and its start plus the frames run, and `previousCellCount` is either its start or the count of a frame run |
| Runs.Abs | Generator3DApp/Generator3D.cs.cs:235 | `Math.Abs` is non-negative and equals its argument or its negation |
| Generator2D.LeniaDataGenerator2D.constructor | Generator2DApp/Generator2DApp.cs:62-78 | the parameters are stored and the field, kernel and frames start empty |
| Generator2D.LeniaDataGenerator2D.Run | Generator2DApp/Generator2DApp.cs:92-97 | the kernel is the cube of radius `kernelRadius` with normalised weights; the field is the seeded box after `numFrames` gathered generations; frames 0 .. numFrames - 1 are saved in order, frame i being the field after i generations |
| Generator2D.LeniaDataGenerator2D.InitializeKernel | Generator2DApp/Generator2DApp.cs:99-124 | the cube's offsets are appended and its weights, with `sigmaK = r / 4`, are normalised |
| Generator2D.LeniaDataGenerator2D.InitializeGame | Generator2DApp/Generator2DApp.cs:126-142 | the field is seeded over `[-half, half)^2` |
| Generator2D.LeniaDataGenerator2D.PrecomputeFrames | Generator2DApp/Generator2DApp.cs:162-167 | exactly `numFrames` frames are saved, each before its step |
| Generator2D.LeniaDataGenerator2D.SaveFrameToFile | Generator2DApp/Generator2DApp.cs:172-193 | one frame listing the field is appended |
| Generator2D.LeniaDataGenerator2D.NextGeneration | Generator2DApp/Generator2DApp.cs:195-224 | the field becomes its gathered `Step`; the kernel is unchanged |
| Generator4D.LeniaDataGenerator4D.constructor | Generator4DApp/Generator4D.cs:117-138 | the parameters are stored, both widths are 0, and the field, kernel and frames start empty |
| Generator4D.LeniaDataGenerator4D.Run | Generator4DApp/Generator4D.cs:155-162 | both widths are `kernelRadius` times their multipliers; the kernel is the 4-cube with normalised weights; frames 0 .. numFrames - 1 of the gathered run from the seeded box are saved in order |
| Generator4D.LeniaDataGenerator4D.InitializeKernel | Generator4DApp/Generator4D.cs:164-196 | the offsets of `[-r, r]^4` are appended and their weights normalised |
| Generator4D.LeniaDataGenerator4D.InitializeGame | Generator4DApp/Generator4D.cs:198-220 | the field is seeded over `[-half, half)^4` |
| Generator4D.LeniaDataGenerator4D.PrecomputeFrames | Generator4DApp/Generator4D.cs:240-245 | exactly `numFrames` frames are saved, each before its step, with no early stop |
| Generator4D.LeniaDataGenerator4D.SaveFrameToFile | Generator4DApp/Generator4D.cs:250-279 | one frame whose cell array lists the field is appended |
| Generator4D.LeniaDataGenerator4D.NextGeneration | Generator4DApp/Generator4D.cs:281-310 | the field becomes its gathered `Step`; the kernel and widths are unchanged |
| Generator3DStability.LeniaDataGenerator3D.constructor | Generator3DApp/Generator3D.cs.cs:89-109 | the parameters are stored, both widths are 0, and the field, kernel and frames start empty |
| Generator3DStability.LeniaDataGenerator3D.Run | Generator3DApp/Generator3D.cs.cs:124-131 | the widths, the kernel and the seeded field are set as in the source; the end state and the number of saved frames are those of the stability state machine on the gathered run |
| Generator3DStability.LeniaDataGenerator3D.InitializeKernel | Generator3DApp/Generator3D.cs.cs:133-162 | the offsets of `[-r, r]^3` are appended and their weights divided by their total |
| Generator3DStability.LeniaDataGenerator3D.InitializeGame | Generator3DApp/Generator3D.cs.cs:164-183 | the field is seeded over `[-half, half)^3` |
| Generator3DStability.LeniaDataGenerator3D.PrecomputeFrames | Generator3DApp/Generator3D.cs.cs:204-250 | the loop saves frame i, steps, and stops on a slow frame or an empty field; it returns the end state, and saves the frames, that the stability state machine gives |
| Generator3DStability.LeniaDataGenerator3D.Verdict | Generator3DApp/Generator3D.cs.cs:219-248 | the checks after frame i are one step of the stability state machine: the slow-frame check first, then emptiness, then the counter |
| Generator3DStability.LeniaDataGenerator3D.SaveFrameToFile | Generator3DApp/Generator3D.cs.cs:269-290 | one frame listing the field is appended |
| Generator3DStability.LeniaDataGenerator3D.NextGeneration | Generator3DApp/Generator3D.cs.cs:292-320 | the field becomes its gathered `Step`; the kernel and widths are unchanged |
| Generator3D.LeniaDataGenerator3D.constructor | Generator3DApp/Generator3D.cs:91-118 | the parameters are stored, the widths and their squares are 0, and the field, kernel, index dictionary and frames start empty |
| Generator3D.LeniaDataGenerator3D.Run | Generator3DApp/Generator3D.cs:133-147 | the widths and their squares are set; the kernel is the 3-cube with its index dictionary and `1/sum`-scaled weights; the tag and the saved frames are those of the classification of the scattered run |
| Generator3D.LeniaDataGenerator3D.SetWidths | Generator3DApp/Generator3D.cs:135-142 | both widths are `kernelRadius` times their multiplier; `r0^2`, both squares and `2 * growthSigma^2` are computed from them, and the denominators are not zero |
| Generator3D.LeniaDataGenerator3D.InitializeKernel | Generator3DApp/Generator3D.cs:149-182 | the offsets of `[-r, r]^3`, their index dictionary, and their weights scaled by `invSum` in place |
| Generator3D.LeniaDataGenerator3D.InitializeGame | Generator3DApp/Generator3D.cs:184-203 | the field is seeded over `[-half, half)^3` |
| Generator3D.LeniaDataGenerator3D.PrecomputeFrames | Generator3DApp/Generator3D.cs:205-248 | the loop saves frame i, steps, and stops on a slow frame or an empty field; it returns the tag, and saves the frames, that the classification gives |
| Generator3D.LeniaDataGenerator3D.Verdict | Generator3DApp/Generator3D.cs:226-239 | the checks after frame i are one step of the classification: the slow-frame check first, then emptiness with the `i < 25` split |
| Generator3D.LeniaDataGenerator3D.SaveFrameToFile | Generator3DApp/Generator3D.cs:273-295 | one frame listing the field is appended |
| Generator3D.LeniaDataGenerator3D.NextGeneration | Generator3DApp/Generator3D.cs:297-338 | the field becomes its scattered `Step`; the kernel, the index dictionary and the widths are unchanged |

## Left out

- Writing frames as JSON with `File.WriteAllText` is not modelled. A frame is recorded as its index and its cell list or array.
- Creating, clearing, moving and deleting directories is not modelled. The tag or end state that names the target directory is returned instead.
- `Main` argument parsing is not modelled. The parameters are constructor arguments.
- GeneratorManagerApp/GeneratorManager.cs is not part of this model. It launches external processes.
- Console output is not modelled.
- `Parallel.ForEach` and the `ConcurrentDictionary` of Generator3D.cs are modelled sequentially, one live cell after another. The scattered sums are then proved independent of the order of the cells.
- `float` rounding, NaN and infinities are not modelled: values are `real`.
- Engine.BellShape: its strict `0 < growth` holds for real numbers only. `(float)Math.Exp(e)` is `0f` once `e` is below about -104. With the 2D defaults (`sigma = 0.012`, `center = 0.15`), the program's growth is then exactly 0 for any convolution above about 0.32.
- In C# a zero width gives NaN weights and growth. The model requires non-zero widths: a non-zero `sigma` and `kernelRadius` in 2D, and non-zero `kernelRadius` and multipliers in 3D and 4D.
- `Math.Exp`, `Math.Sqrt`, `Random` and `Stopwatch` are parameters. `exp` is assumed positive, at most 1 for non-positive arguments, and 1 at 0 (`Engine.ExpOk`). `Math.Pow(x, 2)` is written as `x * x`.
- `GetHashCode` and its integer overflow are left out. Dictionary keys are compared structurally (`Vectors.EqualsIsIdentity`).
- `int` overflow is not modelled: coordinates and counts are unbounded integers.
- `kernelValues` before `InitializeKernel` (null in C#) is an empty array. `kernelOffsetIndices` before it is an empty map.
- Kernels.ScaleInto: when the kernel is empty, `1f / 0f` is infinity in C#. Here the array is simply empty, since there is nothing to scale.
- `Run` requires `kernelOffsets` to be empty, as it is after construction. `InitializeKernel` appends to the list, so a second `Run` would double the kernel.
- Field.NextValue: the monotonicity it states needs a non-negative `deltaT`. It is not stated for a negative one.
- Engine.BellShape: the growth bounds rest on the three assumptions of `Engine.ExpOk`: `exp` is positive, at most 1 for non-positive arguments, and 1 at 0. A function that breaks these, such as a constant 2, breaks `growth <= 1` and `growth(center) == 1`.
- Seeding.SeedFrame: it bounds the number of draws between one and two per position. `SeedNothing` and `SeedEverything` pin the number down at the two extremes.
- Runs.StabilityCounter: it bounds the counter and `previousCellCount`. Its exact value, which no outcome depends on, is given by the definition of `StabilityRun`.
- Differences between the repository's design description and the code; the model follows the code:
  - There is no `maxCellMass` check.
  - `lived` means that the field emptied at frame 25 or later. It is not a fraction of `numFrames`.
  - Seeding is one box `[-half, half)^D` around the origin. There are no random cluster offsets.
  - The gathering generators evaluate the shifted live cells, not a bounding box.
  - The growth curve has no steepness factor.
  - Generator3D.cs weighs an offset by `exp(-(r^2 - r0^2) / (2 sigma^2))`. The others use `exp(-(r - r0)^2 / (2 sigma^2))`.
  - Generator3D.cs.cs returns `unstable`, `dead` or `stable` rather than the four tags.
