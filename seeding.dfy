/** `InitializeGame`: the random seeding of the starting box. `random.NextDouble()`
    is modelled as the stream `random(0), random(1), ...` of the values it returns,
    with a counter of how many have been consumed. */
module Seeding {
  import opened Vectors
  import opened Field
  import opened Odometer

  /** `startingAreaSize / 2` with C#'s integer division, which truncates toward zero. */
  function HalfSize(startingAreaSize: int): (h: int)
    ensures startingAreaSize >= 0 ==> 0 <= h && 2 * h <= startingAreaSize < 2 * h + 2
    ensures startingAreaSize < 0 ==> h <= 0 && startingAreaSize <= 2 * h < startingAreaSize + 2
  {
    if startingAreaSize >= 0 then startingAreaSize / 2 else -((-startingAreaSize) / 2)
  }

  /** The seeding parameters and the stream of `NextDouble()` results. */
  datatype Params = Params(random: nat -> real, cellSpawnChance: real, minInitialValue: real, maxInitialValue: real)

  /** The field built so far and the number of `NextDouble()` calls made. */
  datatype State = State(cells: Field, draws: nat)

  /** `random.NextDouble() * (maxInitialValue - minInitialValue) + minInitialValue`. */
  function InitialValue(prm: Params, draw: nat): real
  {
    prm.random(draw) * (prm.maxInitialValue - prm.minInitialValue) + prm.minInitialValue
  }

  /** One pass of the innermost loop body at position `p`: one draw decides whether
      `p` is seeded, and a second draw, made only then, gives its value. */
  function SeedOne(s: State, p: Pos, prm: Params): State
  {
    if prm.random(s.draws) < prm.cellSpawnChance
    then State(s.cells[p := InitialValue(prm, s.draws + 1)], s.draws + 2)
    else State(s.cells, s.draws + 1)
  }

  /** The loop body applied to the positions `ps` in order. */
  function Seed(s: State, ps: seq<Pos>, prm: Params): State
    decreases |ps|
  {
    if ps == [] then s else Seed(SeedOne(s, ps[0], prm), ps[1..], prm)
  }

  /** The odometer enumeration of the box `[-halfSize, halfSize)^d` that the nested
      loops of `InitializeGame` walk. */
  function StartingBox(startingAreaSize: int, d: nat): seq<Pos>
  {
    var h := HalfSize(startingAreaSize);
    Grid(-h, h, d)
  }

  /** The stream of `NextDouble()` results lies in [0, 1), as .NET documents. */
  ghost predicate UnitStream(prm: Params)
  {
    forall k: nat :: 0.0 <= prm.random(k) < 1.0
  }

  lemma InitialValueBounds(prm: Params, k: nat)
    requires 0.0 <= prm.random(k) <= 1.0
    requires prm.minInitialValue <= prm.maxInitialValue
    ensures prm.minInitialValue <= InitialValue(prm, k) <= prm.maxInitialValue
  {
    ScaleBounds(prm.random(k), prm.maxInitialValue - prm.minInitialValue);
  }

  lemma ScaleBounds(r: real, w: real)
    requires 0.0 <= r <= 1.0 && 0.0 <= w
    ensures 0.0 <= r * w <= w
  {
    assert (1.0 - r) * w >= 0.0;
  }

  /** What seeding leaves: every position outside `ps` keeps its value, every new
      value lies between the configured bounds, and one or two draws are made
      per position. */
  lemma {:induction false} SeedFrame(s: State, ps: seq<Pos>, prm: Params)
    requires UnitStream(prm)
    requires prm.minInitialValue <= prm.maxInitialValue
    ensures Seed(s, ps, prm).cells.Keys <= s.cells.Keys + set p | p in ps
    ensures forall p :: p in s.cells && p !in ps ==> p in Seed(s, ps, prm).cells && Seed(s, ps, prm).cells[p] == s.cells[p]
    ensures forall p :: p in Seed(s, ps, prm).cells ==>
              || (p in s.cells && Seed(s, ps, prm).cells[p] == s.cells[p])
              || prm.minInitialValue <= Seed(s, ps, prm).cells[p] <= prm.maxInitialValue
    ensures s.draws + |ps| <= Seed(s, ps, prm).draws <= s.draws + 2 * |ps|
    decreases |ps|
  {
    if ps != [] {
      var s1 := SeedOne(s, ps[0], prm);
      SeedFrame(s1, ps[1..], prm);
      InitialValueBounds(prm, s.draws + 1);
      assert forall p :: p in ps <==> p == ps[0] || p in ps[1..];
    }
  }

  /** A spawn chance of zero or less seeds nothing and makes one draw per position. */
  lemma {:induction false} SeedNothing(s: State, ps: seq<Pos>, prm: Params)
    requires UnitStream(prm)
    requires prm.cellSpawnChance <= 0.0
    ensures Seed(s, ps, prm) == State(s.cells, s.draws + |ps|)
    decreases |ps|
  {
    if ps != [] {
      SeedNothing(SeedOne(s, ps[0], prm), ps[1..], prm);
    }
  }

  /** A spawn chance of one or more seeds every position and makes two draws each. */
  lemma {:induction false} SeedEverything(s: State, ps: seq<Pos>, prm: Params)
    requires UnitStream(prm)
    requires prm.cellSpawnChance >= 1.0
    ensures Seed(s, ps, prm).cells.Keys == s.cells.Keys + set p | p in ps
    ensures Seed(s, ps, prm).draws == s.draws + 2 * |ps|
    decreases |ps|
  {
    if ps != [] {
      SeedEverything(SeedOne(s, ps[0], prm), ps[1..], prm);
      assert forall p :: p in ps <==> p == ps[0] || p in ps[1..];
    }
  }

  /** Seeding an empty field: the stored positions are inside the starting box,
      have the generator's dimension, and carry values between the bounds. */
  lemma SeededBox(startingAreaSize: int, d: nat, prm: Params, draws: nat)
    requires UnitStream(prm)
    requires prm.minInitialValue <= prm.maxInitialValue
    ensures var h := HalfSize(startingAreaSize);
            var f := Seed(State(map[], draws), StartingBox(startingAreaSize, d), prm).cells;
            forall p :: p in f ==>
              && |p| == d
              && (forall i :: 0 <= i < d ==> -h <= p[i] < h)
              && prm.minInitialValue <= f[p] <= prm.maxInitialValue
  {
    var h := HalfSize(startingAreaSize);
    var box := StartingBox(startingAreaSize, d);
    var f := Seed(State(map[], draws), box, prm).cells;
    SeedFrame(State(map[], draws), box, prm);
    forall p | p in f
      ensures |p| == d && (forall i :: 0 <= i < d ==> -h <= p[i] < h)
    {
      assert p in box;
      GridMembers(-h, h, d, p);
    }
  }

  // ---------------------------------------------------------------------------
  // The nested loops of `InitializeGame`

  /** Seeding two runs of positions one after the other. */
  lemma {:induction false} SeedConcat(s: State, ps: seq<Pos>, qs: seq<Pos>, prm: Params)
    ensures Seed(s, ps + qs, prm) == Seed(Seed(s, ps, prm), qs, prm)
    decreases |ps|
  {
    if ps != [] {
      assert (ps + qs)[1..] == ps[1..] + qs;
      SeedConcat(SeedOne(s, ps[0], prm), ps[1..], qs, prm);
    } else {
      assert ps + qs == qs;
    }
  }

  /** What the loop at depth |prefix| still visits once its counter stands at `x`. */
  function Remaining(prefix: Pos, x: int, halfSize: int, d: nat): seq<Pos>
  {
    Row(prefix, x, halfSize, -halfSize, halfSize, d)
  }

  /** The positions one pass of the loop body at counter value `x` visits. */
  function Head(prefix: Pos, x: int, halfSize: int, d: nat): seq<Pos>
  {
    Ext(prefix + [x], -halfSize, halfSize, d)
  }

  lemma RemainingStep(prefix: Pos, x: int, halfSize: int, d: nat, done: seq<Pos>)
    requires x < halfSize
    requires done + Remaining(prefix, x, halfSize, d) == Remaining(prefix, -halfSize, halfSize, d)
    ensures (done + Head(prefix, x, halfSize, d)) + Remaining(prefix, x + 1, halfSize, d) == Remaining(prefix, -halfSize, halfSize, d)
  {
    assert Remaining(prefix, x, halfSize, d) == Head(prefix, x, halfSize, d) + Remaining(prefix, x + 1, halfSize, d);
  }

  /** The `for (x = -halfSize; x < halfSize; x++)` loops of `InitializeGame`: the
      loop at depth |prefix| with `d` loops nested inside it, each innermost pass
      drawing a spawn decision and, when it succeeds, an initial value. */
  method SeedLoop(aliveCells: Field, draws: nat, prefix: Pos, halfSize: int, d: nat, prm: Params)
    returns (cells: Field, drawn: nat)
    ensures State(cells, drawn) == Seed(State(aliveCells, draws), Remaining(prefix, -halfSize, halfSize, d), prm)
    decreases d
  {
    cells, drawn := aliveCells, draws;
    ghost var done: seq<Pos> := [];
    var x := -halfSize;
    while x < halfSize
      invariant done + Remaining(prefix, x, halfSize, d) == Remaining(prefix, -halfSize, halfSize, d)
      invariant State(cells, drawn) == Seed(State(aliveCells, draws), done, prm)
      decreases halfSize - x
    {
      ghost var head := Head(prefix, x, halfSize, d);
      RemainingStep(prefix, x, halfSize, d, done);
      SeedConcat(State(aliveCells, draws), done, head, prm);
      if d == 0 {
        ghost var before := State(cells, drawn);
        var spawn := prm.random(drawn);
        drawn := drawn + 1;
        if spawn < prm.cellSpawnChance {
          var position := prefix + [x];
          var initialValue := prm.random(drawn) * (prm.maxInitialValue - prm.minInitialValue) + prm.minInitialValue;
          assert initialValue == InitialValue(prm, before.draws + 1);
          drawn := drawn + 1;
          cells := cells[position := initialValue];
        }
        assert State(cells, drawn) == SeedOne(before, prefix + [x], prm);
        assert Seed(before, head, prm) == SeedOne(before, prefix + [x], prm) by {
          assert head == [prefix + [x]];
          assert head[1..] == [];
        }
      } else {
        cells, drawn := SeedLoop(cells, drawn, prefix + [x], halfSize, d - 1, prm);
      }
      done := done + head;
      x := x + 1;
    }
    assert done == Remaining(prefix, -halfSize, halfSize, d);
  }

  /** All D nested loops: the starting box. */
  lemma LoopsAreStartingBox(startingAreaSize: int, dim: nat)
    requires dim > 0
    ensures Remaining([], -HalfSize(startingAreaSize), HalfSize(startingAreaSize), dim - 1) == StartingBox(startingAreaSize, dim)
  {
  }

  /** Seeding only adds positions it visits. */
  lemma {:induction false} SeedKeys(s: State, ps: seq<Pos>, prm: Params)
    ensures Seed(s, ps, prm).cells.Keys <= s.cells.Keys + set p | p in ps
    decreases |ps|
  {
    if ps != [] {
      SeedKeys(SeedOne(s, ps[0], prm), ps[1..], prm);
      assert forall p :: p in ps[1..] ==> p in ps;
    }
  }

  /** Seeding the starting box keeps every stored position of the generator's dimension. */
  lemma SeedKeepsDim(s: State, startingAreaSize: int, d: nat, prm: Params)
    requires AllDim(s.cells, d)
    ensures AllDim(Seed(s, StartingBox(startingAreaSize, d), prm).cells, d)
  {
    var h := HalfSize(startingAreaSize);
    SeedKeys(s, StartingBox(startingAreaSize, d), prm);
    forall p | p in StartingBox(startingAreaSize, d)
      ensures |p| == d
    {
      GridMembers(-h, h, d, p);
    }
  }
}
