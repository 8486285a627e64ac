/** The integer odometer behind every nested counting loop of the generators:
    the kernel loops `for (i = -r; i <= r; i++) for (j ...) ...` run over the
    hypercube [-r, r]^D and the seeding loops `for (x = -half; x < half; x++) ...`
    over [-half, half)^D, the last counter turning fastest. Both are instances of
    `Grid(lo, hi, D)`, the positions of [lo, hi)^D in lexicographic order. */
module Odometer {
  import opened Vectors
  import opened Sequences

  /** Number of integers in [lo, hi). */
  function Width(lo: int, hi: int): nat
  {
    if hi > lo then hi - lo else 0
  }

  function Pow(b: nat, e: nat): nat
  {
    if e == 0 then 1 else b * Pow(b, e - 1)
  }

  /** Every position p + [c] + t with c counting from `from` up to `until - 1` and t
      running over [lo, hi)^d, in the order nested loops produce them: what the
      loops still have to produce when the counter at depth |p| stands at `from`. */
  function Row(p: Pos, from: int, until: int, lo: int, hi: int, d: nat): seq<Pos>
    decreases d, until - from
  {
    if from >= until then []
    else (if d == 0 then [p + [from]] else Row(p + [from], lo, hi, lo, hi, d - 1))
         + Row(p, from + 1, until, lo, hi, d)
  }

  /** Every extension of q by d coordinates in [lo, hi): one full run of the inner loops. */
  function Ext(q: Pos, lo: int, hi: int, d: nat): seq<Pos>
  {
    if d == 0 then [q] else Row(q, lo, hi, lo, hi, d - 1)
  }

  /** [lo, hi)^d in lexicographic order. */
  function Grid(lo: int, hi: int, d: nat): seq<Pos>
  {
    Ext([], lo, hi, d)
  }

  /** The hypercube [-r, r]^d of kernel offsets. */
  function Cube(r: int, d: nat): seq<Pos>
  {
    Grid(-r, r + 1, d)
  }

  // ---------------------------------------------------------------------------
  // Size

  lemma {:induction false} RowLength(p: Pos, from: int, until: int, lo: int, hi: int, d: nat)
    ensures |Row(p, from, until, lo, hi, d)| == Width(from, until) * Pow(Width(lo, hi), d)
    decreases d, until - from
  {
    if from < until {
      var w := Pow(Width(lo, hi), d);
      if d == 0 {
        assert |Ext(p + [from], lo, hi, d)| == 1 == w;
      } else {
        RowLength(p + [from], lo, hi, lo, hi, d - 1);
        assert |Ext(p + [from], lo, hi, d)| == Width(lo, hi) * Pow(Width(lo, hi), d - 1) == w;
      }
      RowLength(p, from + 1, until, lo, hi, d);
      calc {
        |Row(p, from, until, lo, hi, d)|;
        w + Width(from + 1, until) * w;
        (1 + Width(from + 1, until)) * w;
        Width(from, until) * w;
      }
    }
  }

  /** The odometer visits Width(lo, hi)^d positions: (2r+1)^D kernel offsets,
      (2 half)^D seeding candidates. */
  lemma GridLength(lo: int, hi: int, d: nat)
    ensures |Grid(lo, hi, d)| == Pow(Width(lo, hi), d)
  {
    if d > 0 {
      RowLength([], lo, hi, lo, hi, d - 1);
    }
  }

  // ---------------------------------------------------------------------------
  // Membership

  ghost predicate InRow(p: Pos, from: int, until: int, lo: int, hi: int, d: nat, x: Pos)
  {
    && |x| == |p| + 1 + d
    && x[..|p|] == p
    && from <= x[|p|] < until
    && forall i :: |p| < i < |x| ==> lo <= x[i] < hi
  }

  lemma {:induction false} RowMembers(p: Pos, from: int, until: int, lo: int, hi: int, d: nat, x: Pos)
    ensures x in Row(p, from, until, lo, hi, d) <==> InRow(p, from, until, lo, hi, d, x)
    decreases d, until - from
  {
    if from < until {
      RowMembers(p, from + 1, until, lo, hi, d, x);
      HeadMembers(p, from, lo, hi, d, x);
      assert Row(p, from, until, lo, hi, d) == Ext(p + [from], lo, hi, d) + Row(p, from + 1, until, lo, hi, d);
    }
  }

  /** The block of a row whose coordinate at `|p|` is `from`. */
  lemma {:induction false} HeadMembers(p: Pos, from: int, lo: int, hi: int, d: nat, x: Pos)
    ensures x in Ext(p + [from], lo, hi, d) <==> InRow(p, from, from + 1, lo, hi, d, x)
    decreases d, 0
  {
    if d == 0 {
      LastMembers(p, from, lo, hi, x);
    } else {
      var q := p + [from];
      RowMembers(q, lo, hi, lo, hi, d - 1, x);
      InnerRow(p, from, lo, hi, d, x);
    }
  }

  lemma LastMembers(p: Pos, from: int, lo: int, hi: int, x: Pos)
    ensures x in Ext(p + [from], lo, hi, 0) <==> InRow(p, from, from + 1, lo, hi, 0, x)
  {
    if x == p + [from] {
      assert InRow(p, from, from + 1, lo, hi, 0, x);
    }
    if InRow(p, from, from + 1, lo, hi, 0, x) {
      assert x == x[..|p|] + [x[|p|]];
    }
  }

  lemma InnerRow(p: Pos, from: int, lo: int, hi: int, d: nat, x: Pos)
    requires d > 0
    ensures InRow(p + [from], lo, hi, lo, hi, d - 1, x) <==> InRow(p, from, from + 1, lo, hi, d, x)
  {
    var q := p + [from];
    if InRow(q, lo, hi, lo, hi, d - 1, x) {
      assert x[..|p|] == x[..|q|][..|p|];
    }
    if InRow(p, from, from + 1, lo, hi, d, x) {
      assert x[..|q|] == x[..|p|] + [x[|p|]];
    }
  }

  lemma GridMembers(lo: int, hi: int, d: nat, x: Pos)
    ensures x in Grid(lo, hi, d) <==> |x| == d && forall i :: 0 <= i < d ==> lo <= x[i] < hi
  {
    if d > 0 {
      RowMembers([], lo, hi, lo, hi, d - 1, x);
      assert |x| > 0 ==> x[..0] == [];
    } else {
      assert |x| == 0 ==> x == [];
    }
  }

  // ---------------------------------------------------------------------------
  // Order: lexicographic, hence duplicate-free

  /** Strict lexicographic order on coordinate sequences. */
  predicate LexLess(a: Pos, b: Pos)
  {
    |a| > 0 && |b| > 0 && (a[0] < b[0] || (a[0] == b[0] && LexLess(a[1..], b[1..])))
  }

  lemma {:induction false} LexLessAt(a: Pos, b: Pos, k: nat)
    requires k < |a| && k < |b| && a[..k] == b[..k] && a[k] < b[k]
    ensures LexLess(a, b)
  {
    if k > 0 {
      assert a[0] == a[..k][0] == b[..k][0] == b[0];
      assert a[1..][..k - 1] == a[..k][1..] == b[..k][1..] == b[1..][..k - 1];
      LexLessAt(a[1..], b[1..], k - 1);
    }
  }

  lemma {:induction false} LexLessIrreflexive(a: Pos)
    ensures !LexLess(a, a)
  {
    if |a| > 0 {
      LexLessIrreflexive(a[1..]);
    }
  }

  ghost predicate Sorted(s: seq<Pos>)
  {
    forall a, b :: 0 <= a < b < |s| ==> LexLess(s[a], s[b])
  }

  ghost predicate Distinct<T>(s: seq<T>)
  {
    forall a, b :: 0 <= a < b < |s| ==> s[a] != s[b]
  }

  lemma SortedConcat(s: seq<Pos>, t: seq<Pos>)
    requires Sorted(s) && Sorted(t)
    requires forall x, y :: x in s && y in t ==> LexLess(x, y)
    ensures Sorted(s + t)
  {
    forall a, b | 0 <= a < b < |s + t|
      ensures LexLess((s + t)[a], (s + t)[b])
    {
      if b < |s| {
        assert (s + t)[a] == s[a] && (s + t)[b] == s[b];
      } else if a >= |s| {
        assert (s + t)[a] == t[a - |s|] && (s + t)[b] == t[b - |s|];
      } else {
        assert (s + t)[a] in s && (s + t)[b] in t;
      }
    }
  }

  lemma {:induction false} RowSorted(p: Pos, from: int, until: int, lo: int, hi: int, d: nat)
    ensures Sorted(Row(p, from, until, lo, hi, d))
    decreases d, until - from
  {
    if from < until {
      var q := p + [from];
      var head, tail := Ext(q, lo, hi, d), Row(p, from + 1, until, lo, hi, d);
      if d > 0 {
        RowSorted(q, lo, hi, lo, hi, d - 1);
      }
      RowSorted(p, from + 1, until, lo, hi, d);
      forall x, y | x in head && y in tail
        ensures LexLess(x, y)
      {
        RowMembers(p, from + 1, until, lo, hi, d, y);
        if d == 0 {
          assert x == q;
        } else {
          RowMembers(q, lo, hi, lo, hi, d - 1, x);
          assert x[..|p|] == x[..|q|][..|p|];
        }
        assert x[..|p|] == p == y[..|p|] && x[|p|] == from < y[|p|];
        LexLessAt(x, y, |p|);
      }
      SortedConcat(head, tail);
    }
  }

  /** The kernel loops list their offsets in i, j, k, ... lexicographic order. */
  lemma GridSorted(lo: int, hi: int, d: nat)
    ensures Sorted(Grid(lo, hi, d))
  {
    if d > 0 {
      RowSorted([], lo, hi, lo, hi, d - 1);
    }
  }

  /** ... and so list every offset once. */
  lemma GridDistinct(lo: int, hi: int, d: nat)
    ensures Distinct(Grid(lo, hi, d))
  {
    var g := Grid(lo, hi, d);
    GridSorted(lo, hi, d);
    forall a, b | 0 <= a < b < |g|
      ensures g[a] != g[b]
    {
      LexLessIrreflexive(g[a]);
    }
  }

  // ---------------------------------------------------------------------------
  // Mirror symmetry of the kernel hypercube

  function Mirrored(s: seq<Pos>): (m: seq<Pos>)
    ensures |m| == |s|
    ensures forall i :: 0 <= i < |s| ==> m[i] == Neg(s[i])
  {
    seq(|s|, i requires 0 <= i < |s| => Neg(s[i]))
  }

  lemma MirroredConcat(s: seq<Pos>, t: seq<Pos>)
    ensures Mirrored(s + t) == Mirrored(s) + Mirrored(t)
  {
    assert forall i :: 0 <= i < |s + t| ==> Mirrored(s + t)[i] == (Mirrored(s) + Mirrored(t))[i];
  }

  /** The last counter value can be split off the end as well as off the front. */
  lemma {:induction false} RowPeelLast(p: Pos, from: int, until: int, lo: int, hi: int, d: nat)
    requires from < until
    ensures Row(p, from, until, lo, hi, d) == Row(p, from, until - 1, lo, hi, d) + Ext(p + [until - 1], lo, hi, d)
    decreases until - from
  {
    if from < until - 1 {
      RowPeelLast(p, from + 1, until, lo, hi, d);
      var e := Ext(p + [from], lo, hi, d);
      assert Row(p, from, until, lo, hi, d)
          == e + (Row(p, from + 1, until - 1, lo, hi, d) + Ext(p + [until - 1], lo, hi, d));
    } else {
      assert Row(p, from + 1, until, lo, hi, d) == [] == Row(p, from, until - 1, lo, hi, d);
    }
  }

  /** Mirroring a run of the loops over [-r, r] gives the mirrored run backwards;
      the mirrored run counts from `mfrom = 1 - until` up to `muntil = 1 - from`. */
  lemma {:induction false} RowMirror(p: Pos, from: int, until: int, mfrom: int, muntil: int, r: int, d: nat)
    requires mfrom == 1 - until && muntil == 1 - from
    ensures Mirrored(Row(p, from, until, -r, r + 1, d)) == Reverse(Row(Neg(p), mfrom, muntil, -r, r + 1, d))
    decreases d, until - from
  {
    if from < until {
      var np := Neg(p);
      var last := muntil - 1;
      var head := Ext(p + [from], -r, r + 1, d);
      var tail := Row(p, from + 1, until, -r, r + 1, d);
      assert Row(p, from, until, -r, r + 1, d) == head + tail;
      RowPeelLast(np, mfrom, muntil, -r, r + 1, d);
      ExtMirror(p, from, last, r, d);
      RowMirror(p, from + 1, until, mfrom, last, r, d);
      MirroredConcat(head, tail);
      ReverseConcat(Row(np, mfrom, last, -r, r + 1, d), Ext(np + [last], -r, r + 1, d));
    }
  }

  /** One full run of the inner loops under a fixed outer counter `c`, mirrored:
      the run under `mc = -c` backwards. */
  lemma {:induction false} ExtMirror(p: Pos, c: int, mc: int, r: int, d: nat)
    requires mc == -c
    ensures Mirrored(Ext(p + [c], -r, r + 1, d)) == Reverse(Ext(Neg(p) + [mc], -r, r + 1, d))
    decreases d, 0
  {
    NegConcat(p, [c]);
    var nq := Neg(p) + [mc];
    assert Neg(p + [c]) == nq;
    if d == 0 {
      assert Mirrored([p + [c]]) == [nq];
    } else {
      RowMirror(p + [c], -r, r + 1, -r, r + 1, r, d - 1);
    }
  }

  /** Read backwards, the kernel hypercube [-r, r]^d is its own mirror image:
      the offset n places from the end is the negation of the n-th offset. */
  lemma CubeMirror(r: int, d: nat)
    ensures Mirrored(Cube(r, d)) == Reverse(Cube(r, d))
  {
    if d > 0 {
      RowMirror([], -r, r + 1, -r, r + 1, r, d - 1);
      assert Neg([]) == [];
    } else {
      assert Mirrored([[]]) == [[]];
    }
  }
}
