/** Integer position vectors of the lattice: the `Vector2Int`, `Vector3Int` and
    `Vector4Int` structs of the generators, written once as a sequence of
    coordinates whose length is the dimension. */
module Vectors {

  type Pos = seq<int>

  /** `operator +` of the vector structs: component-wise sum. */
  function Add(a: Pos, b: Pos): (c: Pos)
    requires |a| == |b|
    ensures |c| == |a|
    ensures forall i :: 0 <= i < |a| ==> c[i] == a[i] + b[i]
  {
    seq(|a|, i requires 0 <= i < |a| => a[i] + b[i])
  }

  /** Component-wise difference: the position that `b` is added to in order to reach `a`. */
  function Sub(a: Pos, b: Pos): (c: Pos)
    requires |a| == |b|
    ensures |c| == |a|
    ensures forall i :: 0 <= i < |a| ==> c[i] == a[i] - b[i]
  {
    seq(|a|, i requires 0 <= i < |a| => a[i] - b[i])
  }

  /** The mirrored offset. */
  function Neg(a: Pos): (c: Pos)
    ensures |c| == |a|
    ensures forall i :: 0 <= i < |a| ==> c[i] == -a[i]
  {
    seq(|a|, i requires 0 <= i < |a| => -a[i])
  }

  /** The origin of dimension d. */
  function Zero(d: nat): (z: Pos)
    ensures |z| == d
    ensures forall i :: 0 <= i < d ==> z[i] == 0
  {
    seq(d, i => 0)
  }

  /** `Equals` of the vector structs: every coordinate agrees. */
  predicate Equals(a: Pos, b: Pos)
    requires |a| == |b|
  {
    forall i :: 0 <= i < |a| ==> a[i] == b[i]
  }

  /** Component-wise equality is the identity of positions, so a dictionary keyed
      by positions has one entry per lattice point. */
  lemma EqualsIsIdentity(a: Pos, b: Pos)
    requires |a| == |b|
    ensures Equals(a, b) <==> a == b
  {
    if Equals(a, b) {
      assert forall i :: 0 <= i < |a| ==> a[i] == b[i];
    }
  }

  /** Subtracting an offset undoes adding it, and the other way round:
      `q + o == p` exactly when `q == p - o`. */
  lemma AddSubInverse(p: Pos, o: Pos, q: Pos)
    requires |p| == |o| == |q|
    ensures Add(q, o) == p <==> Sub(p, o) == q
  {
    if Add(q, o) == p {
      assert forall i :: 0 <= i < |q| ==> Sub(p, o)[i] == q[i];
    }
    if Sub(p, o) == q {
      assert forall i :: 0 <= i < |q| ==> Add(q, o)[i] == p[i];
    }
  }

  /** Adding the mirrored offset is subtracting the offset. */
  lemma AddNegIsSub(p: Pos, o: Pos)
    requires |p| == |o|
    ensures Add(p, Neg(o)) == Sub(p, o)
  {
    assert forall i :: 0 <= i < |p| ==> Add(p, Neg(o))[i] == Sub(p, o)[i];
  }

  /** Adding the zero offset leaves a position where it is. */
  lemma AddZero(q: Pos)
    ensures Add(q, Zero(|q|)) == q
  {
    assert forall i :: 0 <= i < |q| ==> Add(q, Zero(|q|))[i] == q[i];
  }

  /** Mirroring twice is the identity, and mirroring distributes over concatenation. */
  lemma NegNeg(a: Pos)
    ensures Neg(Neg(a)) == a
  {
    assert forall i :: 0 <= i < |a| ==> Neg(Neg(a))[i] == a[i];
  }

  lemma NegConcat(a: Pos, b: Pos)
    ensures Neg(a + b) == Neg(a) + Neg(b)
  {
    assert forall i :: 0 <= i < |a + b| ==> Neg(a + b)[i] == (Neg(a) + Neg(b))[i];
  }
}
