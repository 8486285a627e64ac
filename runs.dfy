/** `PrecomputeFrames`: the frame loop of each generator, as functions of the
    starting field, the update rule and the time each frame took. The 2D and 4D
    generators save a fixed number of frames; Generator3D.cs stops early and
    tags the run `timed_out`, `died`, `lived` or `unstable`; Generator3D.cs.cs
    stops early as well, tags the run `unstable`, `dead` or `stable`, and keeps
    a count of frames whose cell count barely changed. */
module Runs {
  import opened Field
  import opened Engine
  import opened Frames

  /** The field after n calls of `NextGeneration`. */
  function Iterate(s: Strategy, f: Field, rule: Rule, n: nat): (g: Field)
    requires RuleOk(rule) && AllDim(f, rule.dim)
    ensures AllDim(g, rule.dim)
    ensures n > 0 ==> InRange(g)
    decreases n
  {
    if n == 0 then f else Step(s, Iterate(s, f, rule, n - 1), rule)
  }

  /** One more generation is one more step. */
  lemma IterateNext(s: Strategy, f: Field, rule: Rule, count: nat, cur: Field)
    requires RuleOk(rule) && AllDim(f, rule.dim) && cur == Iterate(s, f, rule, count)
    ensures Step(s, cur, rule) == Iterate(s, f, rule, count + 1)
  {
  }

  /** The fields of a run from `f`: generation k is the field after k calls
      of `NextGeneration`. */
  ghost function Generations(s: Strategy, f: Field, rule: Rule): (fields: nat -> Field)
    requires RuleOk(rule) && AllDim(f, rule.dim)
    ensures fields(0) == f
  {
    (k: nat) => Iterate(s, f, rule, k)
  }

  /** One more generation is one more step. */
  lemma GenerationsNext(s: Strategy, f: Field, rule: Rule, count: nat, cur: Field)
    requires RuleOk(rule) && AllDim(f, rule.dim) && cur == Generations(s, f, rule)(count)
    ensures AllDim(cur, rule.dim) && Step(s, cur, rule) == Generations(s, f, rule)(count + 1)
  {
    assert cur == Iterate(s, f, rule, count);
    IterateNext(s, f, rule, count, cur);
    assert Generations(s, f, rule)(count + 1) == Iterate(s, f, rule, count + 1);
  }

  /** `frames` is `prefix` followed by frames 0 .. count - 1, frame j numbered j
      and listing the pairs of `fields(j)`. */
  ghost predicate SavedRun(frames: seq<FrameRecord>, prefix: seq<FrameRecord>, count: nat, fields: nat -> Field)
  {
    && |frames| == |prefix| + count
    && (forall j :: 0 <= j < |prefix| ==> frames[j] == prefix[j])
    && (forall j :: |prefix| <= j < |frames| ==>
          frames[j].frameIndex == j - |prefix| && Listing(frames[j].cells, fields(j - |prefix|)))
  }

  /** Saving `fields(count)` as frame `count` extends a saved run by one frame. */
  lemma SavedRunNext(before: seq<FrameRecord>, frames: seq<FrameRecord>, prefix: seq<FrameRecord>, count: nat,
                     fields: nat -> Field)
    requires SavedRun(before, prefix, count, fields)
    requires |frames| == |before| + 1 && frames[..|before|] == before
    requires frames[|before|].frameIndex == count && Listing(frames[|before|].cells, fields(count))
    ensures SavedRun(frames, prefix, count + 1, fields)
  {
    forall j | 0 <= j < |before|
      ensures frames[j] == before[j]
    {
      assert frames[..|before|][j] == frames[j];
    }
  }

  /** `aliveCells.Count` after the step of frame j: what the early-stopping loops
      test. */
  ghost function CellCount(s: Strategy, f: Field, rule: Rule, j: nat): nat
  {
    if RuleOk(rule) && AllDim(f, rule.dim) then |Iterate(s, f, rule, j + 1)| else 0
  }

  /** The cell counts of a whole run, frame by frame. */
  ghost function Counts(s: Strategy, f: Field, rule: Rule): nat -> nat
  {
    j => CellCount(s, f, rule, j)
  }

  /** The count the loops test after frame i is the size of generation i + 1. */
  lemma CountsAt(s: Strategy, f: Field, rule: Rule, i: nat)
    requires RuleOk(rule) && AllDim(f, rule.dim)
    ensures Counts(s, f, rule)(i) == |Generations(s, f, rule)(i + 1)|
  {
  }

  /** The scattering step and the gathering step take every field of the rule's
      dimension to the same next field. */
  ghost predicate StepsAgree(rule: Rule)
  {
    RuleOk(rule) && forall g {:trigger Step(Scatter, g, rule)} :: AllDim(g, rule.dim) ==> Step(Scatter, g, rule) == Step(Gather, g, rule)
  }

  /** They do under a symmetric kernel. */
  lemma SymmetricStepsAgree(rule: Rule)
    requires RuleOk(rule) && Symmetric(rule.kernel)
    ensures StepsAgree(rule)
  {
    forall g | AllDim(g, rule.dim)
      ensures Step(Scatter, g, rule) == Step(Gather, g, rule)
    {
      ScatterEqualsGather(g, rule);
    }
  }

  /** Equal fields step to equal fields, whichever way each is stepped. */
  lemma SameStep(rule: Rule, a: Field, b: Field)
    requires StepsAgree(rule) && AllDim(a, rule.dim) && a == b
    ensures Step(Scatter, a, rule) == Step(Gather, b, rule)
  {
    assert Step(Scatter, b, rule) == Step(Gather, b, rule);
  }

  /** So the scattering generator and the gathering ones go through the same
      fields, generation after generation. */
  lemma {:induction false} IterateStrategiesAgree(f: Field, rule: Rule, n: nat)
    requires StepsAgree(rule) && AllDim(f, rule.dim)
    ensures Iterate(Scatter, f, rule, n) == Iterate(Gather, f, rule, n)
    decreases n
  {
    if n > 0 {
      var a, b := Iterate(Scatter, f, rule, n - 1), Iterate(Gather, f, rule, n - 1);
      IterateStrategiesAgree(f, rule, n - 1);
      SameStep(rule, a, b);
      IterateNext(Scatter, f, rule, n - 1, a);
      IterateNext(Gather, f, rule, n - 1, b);
    }
  }

  /** So the cell counts the frame loops test are the same as well. */
  lemma CountsAgree(f: Field, rule: Rule)
    requires StepsAgree(rule) && AllDim(f, rule.dim)
    ensures forall j: nat :: Counts(Scatter, f, rule)(j) == Counts(Gather, f, rule)(j)
  {
    forall j: nat
      ensures Counts(Scatter, f, rule)(j) == Counts(Gather, f, rule)(j)
    {
      IterateStrategiesAgree(f, rule, j + 1);
    }
  }

  // ---------------------------------------------------------------------------
  // Generator3D.cs

  /** The tag of a run and the number of frames saved. */
  datatype Outcome = Outcome(behavior: string, frames: nat)

  /** The loop of Generator3D.cs from frame `i` on, `counts(j)` being the number of
      live cells after the step of frame j: after frame i has been saved and the
      field advanced, a frame slower than the limit ends the run as `timed_out`;
      otherwise an empty field ends it as `died` before frame 25 and `lived` from
      frame 25 on; a run that reaches `numFrames` is `unstable`. */
  function Run(counts: nat -> nat, i: nat, numFrames: int, elapsed: nat -> real, maxFrameTimeSeconds: real): Outcome
    decreases numFrames - i
  {
    if i >= numFrames then Outcome("unstable", i)
    else if elapsed(i) > maxFrameTimeSeconds then Outcome("timed_out", i + 1)
    else if counts(i) == 0 then Outcome(if i < 25 then "died" else "lived", i + 1)
    else Run(counts, i + 1, numFrames, elapsed, maxFrameTimeSeconds)
  }

  /** Frame `j` neither took too long nor left the field empty. */
  predicate Completed(counts: nat -> nat, j: nat, elapsed: nat -> real, maxFrameTimeSeconds: real)
  {
    elapsed(j) <= maxFrameTimeSeconds && counts(j) != 0
  }

  /** The run is `unstable` exactly when every frame completes; otherwise it stops
      at the first frame that does not, and the tag says why: the time limit is
      checked before the field, and an emptied field is `died` when it emptied
      at a frame below 25 and `lived` otherwise. The frames saved are the frames
      up to and including the one the loop stopped at. */
  lemma {:induction false} RunOutcome(counts: nat -> nat, i: nat, numFrames: int, elapsed: nat -> real, maxFrameTimeSeconds: real)
    ensures var o := Run(counts, i, numFrames, elapsed, maxFrameTimeSeconds);
            && i <= o.frames
            && (i <= numFrames ==> o.frames <= numFrames)
            && o.behavior in {"timed_out", "died", "lived", "unstable"}
            && (o.behavior == "unstable" <==> forall j :: i <= j < numFrames ==> Completed(counts, j, elapsed, maxFrameTimeSeconds))
            && (o.behavior == "unstable" ==> o.frames == if i <= numFrames then numFrames else i)
            && (o.behavior != "unstable" ==>
                  var last := o.frames - 1;
                  && i <= last < numFrames
                  && (forall j :: i <= j < last ==> Completed(counts, j, elapsed, maxFrameTimeSeconds))
                  && !Completed(counts, last, elapsed, maxFrameTimeSeconds)
                  && (o.behavior == "timed_out" <==> elapsed(last) > maxFrameTimeSeconds)
                  && (o.behavior == "died" <==> elapsed(last) <= maxFrameTimeSeconds && last < 25)
                  && (o.behavior == "lived" <==> elapsed(last) <= maxFrameTimeSeconds && last >= 25))
    decreases numFrames - i
  {
    if i < numFrames && Completed(counts, i, elapsed, maxFrameTimeSeconds) {
      RunOutcome(counts, i + 1, numFrames, elapsed, maxFrameTimeSeconds);
    }
  }

  /** The tag and the frame count depend on the cell counts only. */
  lemma {:induction false} RunSameCounts(counts: nat -> nat, other: nat -> nat, i: nat, numFrames: int,
                                         elapsed: nat -> real, maxFrameTimeSeconds: real)
    requires forall j: nat :: counts(j) == other(j)
    ensures Run(counts, i, numFrames, elapsed, maxFrameTimeSeconds) == Run(other, i, numFrames, elapsed, maxFrameTimeSeconds)
    decreases numFrames - i
  {
    if i < numFrames {
      RunSameCounts(counts, other, i + 1, numFrames, elapsed, maxFrameTimeSeconds);
    }
  }

  /** Under a symmetric kernel Generator3D.cs, which scatters, tags a run and
      saves its frames as it would if it gathered: the same fields in the same
      frames, and the same tag after the same number of frames. */
  lemma ScatterRunIsGatherRun(f: Field, rule: Rule, numFrames: int, elapsed: nat -> real, maxFrameTimeSeconds: real)
    requires RuleOk(rule) && AllDim(f, rule.dim) && Symmetric(rule.kernel)
    ensures forall k: nat :: Generations(Scatter, f, rule)(k) == Generations(Gather, f, rule)(k)
    ensures Run(Counts(Scatter, f, rule), 0, numFrames, elapsed, maxFrameTimeSeconds)
         == Run(Counts(Gather, f, rule), 0, numFrames, elapsed, maxFrameTimeSeconds)
  {
    SymmetricStepsAgree(rule);
    forall k: nat
      ensures Generations(Scatter, f, rule)(k) == Generations(Gather, f, rule)(k)
    {
      IterateStrategiesAgree(f, rule, k);
    }
    CountsAgree(f, rule);
    RunSameCounts(Counts(Scatter, f, rule), Counts(Gather, f, rule), 0, numFrames, elapsed, maxFrameTimeSeconds);
  }

  /** A run from an empty field that is not timed out at its first frame dies
      there, after one saved frame. */
  lemma RunFromEmpty(s: Strategy, rule: Rule, numFrames: int, elapsed: nat -> real, maxFrameTimeSeconds: real)
    requires RuleOk(rule) && 0 < numFrames && elapsed(0) <= maxFrameTimeSeconds
    ensures Run(Counts(s, map[], rule), 0, numFrames, elapsed, maxFrameTimeSeconds) == Outcome("died", 1)
  {
    StepEmpty(s, map[], rule);
    assert Iterate(s, map[], rule, 1) == Step(s, map[], rule);
    assert Counts(s, map[], rule)(0) == 0;
  }

  // ---------------------------------------------------------------------------
  // Generator3D.cs.cs

  function Abs(x: int): (a: int)
    ensures a >= 0 && (a == x || a == -x)
  {
    if x < 0 then -x else x
  }

  /** The state the loop of Generator3D.cs.cs ends in. */
  datatype StabilityOutcome = StabilityOutcome(endState: string, frames: nat, previousCellCount: int, stableFrameCount: int)

  /** The loop of Generator3D.cs.cs from frame `i` on: a slow frame ends the run
      as `unstable`, an empty field as `dead`; otherwise a cell count within 5 of
      the previous one extends the run of similar frames, which sets `stable`
      from its tenth frame on, and any other count resets it. */
  function StabilityRun(counts: nat -> nat, i: nat, numFrames: int, elapsed: nat -> real, maxFrameTimeSeconds: real,
                        endState: string, previousCellCount: int, stableFrameCount: int): StabilityOutcome
    decreases numFrames - i
  {
    if i >= numFrames then StabilityOutcome(endState, i, previousCellCount, stableFrameCount)
    else if elapsed(i) > maxFrameTimeSeconds then StabilityOutcome("unstable", i + 1, previousCellCount, stableFrameCount)
    else if counts(i) == 0 then StabilityOutcome("dead", i + 1, previousCellCount, stableFrameCount)
    else
      var similar := Abs(counts(i) - previousCellCount) <= 5;
      var stable := if similar then stableFrameCount + 1 else 0;
      var state := if similar && stable >= 10 then "stable" else endState;
      StabilityRun(counts, i + 1, numFrames, elapsed, maxFrameTimeSeconds, state, counts(i), stable)
  }

  /** The Generator3D.cs tag under the names Generator3D.cs.cs uses. */
  function Relabel(behavior: string): string
  {
    if behavior == "timed_out" then "unstable"
    else if behavior == "died" || behavior == "lived" then "dead"
    else "stable"
  }

  /** The stability counter never decides anything: its branch only ever sets
      `stable`, the value `endState` starts with. So Generator3D.cs.cs ends in the
      state Generator3D.cs's tag names, with the same frames saved: `unstable`
      after a slow frame, `dead` after an emptied field, `stable` otherwise. */
  lemma {:induction false} StabilityIgnoresCounter(counts: nat -> nat, i: nat, numFrames: int, elapsed: nat -> real,
                                                   maxFrameTimeSeconds: real, previousCellCount: int, stableFrameCount: int)
    ensures var o := StabilityRun(counts, i, numFrames, elapsed, maxFrameTimeSeconds, "stable", previousCellCount, stableFrameCount);
            var r := Run(counts, i, numFrames, elapsed, maxFrameTimeSeconds);
            o.endState == Relabel(r.behavior) && o.frames == r.frames
    decreases numFrames - i
  {
    if i < numFrames && Completed(counts, i, elapsed, maxFrameTimeSeconds) {
      var similar := Abs(counts(i) - previousCellCount) <= 5;
      var stable := if similar then stableFrameCount + 1 else 0;
      StabilityIgnoresCounter(counts, i + 1, numFrames, elapsed, maxFrameTimeSeconds, counts(i), stable);
    }
  }

  /** The counter grows by at most one per completed frame and is never negative;
      at the end `previousCellCount` is the cell count after the last completed
      frame, or the count the loop started with if none completed. */
  lemma {:induction false} StabilityCounter(counts: nat -> nat, i: nat, numFrames: int, elapsed: nat -> real,
                                            maxFrameTimeSeconds: real, endState: string, previousCellCount: int, stableFrameCount: int)
    requires stableFrameCount >= 0
    ensures var o := StabilityRun(counts, i, numFrames, elapsed, maxFrameTimeSeconds, endState, previousCellCount, stableFrameCount);
            && i <= o.frames
            && 0 <= o.stableFrameCount <= stableFrameCount + (o.frames - i)
            && (o.previousCellCount == previousCellCount || exists j :: i <= j < o.frames && o.previousCellCount == counts(j))
    decreases numFrames - i
  {
    if i < numFrames && Completed(counts, i, elapsed, maxFrameTimeSeconds) {
      var similar := Abs(counts(i) - previousCellCount) <= 5;
      var stable := if similar then stableFrameCount + 1 else 0;
      var state := if similar && stable >= 10 then "stable" else endState;
      StabilityCounter(counts, i + 1, numFrames, elapsed, maxFrameTimeSeconds, state, counts(i), stable);
      var o := StabilityRun(counts, i + 1, numFrames, elapsed, maxFrameTimeSeconds, state, counts(i), stable);
      if o.previousCellCount == counts(i) {
        assert i <= i < o.frames && o.previousCellCount == counts(i);
      }
    }
  }
}
