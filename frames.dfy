/** The cell list that `SaveFrameToFile` builds from a field before it is
    serialised: one `CellData { x, y, (z, (w,)) value }` per stored pair. */
module Frames {
  import opened Vectors
  import opened Field

  /** `CellData`: the coordinates and the value of one stored position. */
  datatype Cell = Cell(pos: Pos, value: real)

  /** What `SaveFrameToFile(frameIndex, frameData)` hands to the serialiser. */
  datatype FrameRecord = FrameRecord(frameIndex: int, cells: seq<Cell>)

  function Positions(cells: seq<Cell>): set<Pos>
  {
    set k | 0 <= k < |cells| :: cells[k].pos
  }

  /** `cells` lists the pairs of `m`, in whatever order the dictionary enumerates
      them: the last cell is a stored pair of `m`, and the cells before it list
      the rest of `m`. */
  ghost predicate Listing(cells: seq<Cell>, m: Field)
    decreases |cells|
  {
    if cells == [] then m == map[]
    else
      var c := cells[|cells| - 1];
      c.pos in m && m[c.pos] == c.value && Listing(cells[..|cells| - 1], m - {c.pos})
  }

  /** A listing has one cell per stored pair: as many cells as pairs, and each
      cell's coordinates and value a pair of `m`. */
  lemma {:induction false} ListingEntries(cells: seq<Cell>, m: Field)
    requires Listing(cells, m)
    ensures |cells| == |m|
    ensures forall k :: 0 <= k < |cells| ==> cells[k].pos in m && m[cells[k].pos] == cells[k].value
    decreases |cells|
  {
    if cells != [] {
      var n := |cells| - 1;
      var init, rest := cells[..n], m - {cells[n].pos};
      ListingEntries(init, rest);
      assert m.Keys == rest.Keys + {cells[n].pos};
      assert |m| == |m.Keys| && |rest| == |rest.Keys|;
      forall k | 0 <= k < n
        ensures cells[k].pos in m && m[cells[k].pos] == cells[k].value
      {
        assert cells[k] == init[k];
      }
    }
  }

  /** No position is listed twice. */
  lemma {:induction false} ListingDistinct(cells: seq<Cell>, m: Field)
    requires Listing(cells, m)
    ensures forall a, b :: 0 <= a < b < |cells| ==> cells[a].pos != cells[b].pos
    decreases |cells|
  {
    if cells != [] {
      var n := |cells| - 1;
      var init, rest := cells[..n], m - {cells[n].pos};
      ListingEntries(init, rest);
      ListingDistinct(init, rest);
      forall a, b | 0 <= a < b < |cells|
        ensures cells[a].pos != cells[b].pos
      {
        assert cells[a] == init[a];
        if b < n {
          assert cells[b] == init[b];
        }
      }
    }
  }

  /** Every stored position is listed. */
  lemma {:induction false} ListingPositions(cells: seq<Cell>, m: Field)
    requires Listing(cells, m)
    ensures Positions(cells) == m.Keys
    decreases |cells|
  {
    if cells != [] {
      var n := |cells| - 1;
      var init, rest := cells[..n], m - {cells[n].pos};
      ListingPositions(init, rest);
      assert m.Keys == rest.Keys + {cells[n].pos};
      assert Positions(cells) == Positions(init) + {cells[n].pos} by {
        assert forall k :: 0 <= k < n ==> cells[k] == init[k];
      }
    }
  }

  /** Reading a cell list back into a field, later cells overriding earlier ones. */
  function ToField(cells: seq<Cell>): Field
  {
    if cells == [] then map[]
    else ToField(cells[..|cells| - 1])[cells[|cells| - 1].pos := cells[|cells| - 1].value]
  }

  /** Round trip: the field read back from a frame's cell list is the field the
      frame was taken from, nothing lost and nothing added. */
  lemma {:induction false} ListingRoundTrip(cells: seq<Cell>, m: Field)
    requires Listing(cells, m)
    ensures ToField(cells) == m
    decreases |cells|
  {
    if cells != [] {
      var n := |cells| - 1;
      ListingRoundTrip(cells[..n], m - {cells[n].pos});
      assert (m - {cells[n].pos})[cells[n].pos := cells[n].value] == m;
    }
  }

  /** `m` restricted to the positions `done`. */
  function Restrict(m: Field, done: set<Pos>): (r: Field)
    ensures r.Keys == m.Keys * done
    ensures forall p :: p in r ==> r[p] == m[p]
  {
    map p | p in m && p in done :: m[p]
  }

  /** `cells` lists the pairs of `m` at the positions `done`, one cell each. */
  ghost predicate ListsPart(cells: seq<Cell>, m: Field, done: set<Pos>)
  {
    done <= m.Keys && Listing(cells, Restrict(m, done))
  }

  /** Appending the cell of one more stored position extends a partial listing. */
  lemma ListsPartSnoc(cells: seq<Cell>, m: Field, done: set<Pos>, p: Pos)
    requires ListsPart(cells, m, done) && p in m && p !in done
    ensures ListsPart(cells + [Cell(p, m[p])], m, done + {p})
  {
    var l := cells + [Cell(p, m[p])];
    assert l[..|cells|] == cells;
    assert Restrict(m, done + {p}) - {p} == Restrict(m, done);
  }

  /** A partial listing that has reached every stored position is a listing. */
  lemma ListsAll(cells: seq<Cell>, m: Field)
    requires ListsPart(cells, m, m.Keys - {})
    ensures Listing(cells, m)
  {
    assert Restrict(m, m.Keys - {}) == m;
  }

  /** The list-building loop of the 3D generators:
      `foreach (var kvp in frameData) cells.Add(new CellData { ... })`. */
  method CellList(frameData: Field) returns (cells: seq<Cell>)
    ensures Listing(cells, frameData)
  {
    cells := [];
    var todo := frameData.Keys;
    assert Restrict(frameData, frameData.Keys - todo) == map[];
    while todo != {}
      invariant todo <= frameData.Keys
      invariant ListsPart(cells, frameData, frameData.Keys - todo)
      decreases todo
    {
      var p :| p in todo;
      ListsPartSnoc(cells, frameData, frameData.Keys - todo, p);
      cells := cells + [Cell(p, frameData[p])];
      assert frameData.Keys - (todo - {p}) == (frameData.Keys - todo) + {p};
      todo := todo - {p};
    }
    ListsAll(cells, frameData);
  }

  /** The array-filling loop of the 2D and 4D generators:
      `cells = new CellData[frameData.Count]; foreach (...) cells[index++] = ...`. */
  method CellArray(frameData: Field) returns (cells: array<Cell>)
    ensures fresh(cells)
    ensures cells.Length == |frameData|
    ensures Listing(cells[..], frameData)
  {
    cells := new Cell[|frameData|];
    var index := 0;
    var todo := frameData.Keys;
    assert Restrict(frameData, frameData.Keys - todo) == map[];
    while todo != {}
      invariant todo <= frameData.Keys
      invariant index + |todo| == |frameData| == cells.Length
      invariant ListsPart(cells[..index], frameData, frameData.Keys - todo)
      decreases todo
    {
      var p :| p in todo;
      ListsPartSnoc(cells[..index], frameData, frameData.Keys - todo, p);
      ghost var prev := cells[..index];
      cells[index] := Cell(p, frameData[p]);
      assert cells[..index + 1] == prev + [Cell(p, frameData[p])];
      assert frameData.Keys - (todo - {p}) == (frameData.Keys - todo) + {p};
      index := index + 1;
      todo := todo - {p};
    }
    assert cells[..] == cells[..index];
    ListsAll(cells[..], frameData);
  }
}
