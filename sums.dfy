/** Sums of real sequences: the running `sum += ...` of the kernel loops and of
    `CalculateConvolution`, and the normalisation of the kernel weights. */
module Sums {
  import opened Sequences

  /** The running total of a left-to-right accumulation loop. */
  function Sum(s: seq<real>): real
  {
    if s == [] then 0.0 else Sum(s[..|s| - 1]) + s[|s| - 1]
  }

  /** One more step of the accumulation loop. */
  lemma SumStep(s: seq<real>, n: nat)
    requires n < |s|
    ensures Sum(s[..n + 1]) == Sum(s[..n]) + s[n]
  {
    assert s[..n + 1][..n] == s[..n];
  }

  lemma {:induction false} SumConcat(a: seq<real>, b: seq<real>)
    ensures Sum(a + b) == Sum(a) + Sum(b)
    decreases |b|
  {
    if b != [] {
      assert (a + b)[..|a + b| - 1] == a + b[..|b| - 1];
      SumConcat(a, b[..|b| - 1]);
    } else {
      assert a + b == a;
    }
  }

  /** Summing term by term: the sum of pointwise sums is the sum of the sums. */
  lemma {:induction false} SumPointwise(a: seq<real>, b: seq<real>, c: seq<real>)
    requires |a| == |b| == |c|
    requires forall n :: 0 <= n < |c| ==> c[n] == a[n] + b[n]
    ensures Sum(c) == Sum(a) + Sum(b)
    decreases |c|
  {
    if c != [] {
      var k := |c| - 1;
      SumPointwise(a[..k], b[..k], c[..k]);
    }
  }

  /** A sequence of zeros sums to zero. */
  lemma {:induction false} SumZeros(s: seq<real>)
    requires forall n :: 0 <= n < |s| ==> s[n] == 0.0
    ensures Sum(s) == 0.0
    decreases |s|
  {
    if s != [] {
      SumZeros(s[..|s| - 1]);
    }
  }

  /** Positive terms have a positive sum once there is at least one. */
  lemma {:induction false} SumPositive(s: seq<real>)
    requires forall n :: 0 <= n < |s| ==> s[n] > 0.0
    ensures s != [] ==> Sum(s) > 0.0
    ensures s == [] ==> Sum(s) == 0.0
    decreases |s|
  {
    if s != [] {
      SumPositive(s[..|s| - 1]);
    }
  }

  /** Adding the terms in the opposite order gives the same total. */
  lemma {:induction false} SumReverse(s: seq<real>)
    ensures Sum(Reverse(s)) == Sum(s)
    decreases |s|
  {
    if s != [] {
      var k := |s| - 1;
      var init := s[..k];
      assert s == init + [s[k]];
      ReverseConcat(init, [s[k]]);
      assert Reverse([s[k]]) == [s[k]];
      SumReverse(init);
      SumConcat([s[k]], Reverse(init));
      assert Sum([s[k]]) == s[k] by {
        assert [s[k]][..0] == [];
      }
    }
  }

  /** `kernelValues[idx] *= invSum`: every weight multiplied by one factor. */
  function Scaled(s: seq<real>, c: real): (t: seq<real>)
    ensures |t| == |s|
    ensures forall n :: 0 <= n < |s| ==> t[n] == s[n] * c
  {
    seq(|s|, n requires 0 <= n < |s| => s[n] * c)
  }

  /** `kernelValues[idx] = kernelValueList[idx] / sum`: every weight divided by one divisor. */
  function Divided(s: seq<real>, c: real): (t: seq<real>)
    requires c != 0.0
    ensures |t| == |s|
    ensures forall n :: 0 <= n < |s| ==> t[n] == s[n] / c
  {
    seq(|s|, n requires 0 <= n < |s| => s[n] / c)
  }

  /** Multiplying every weight by one over the divisor is dividing it by the divisor. */
  lemma ScaledByInverse(s: seq<real>, c: real)
    requires c != 0.0
    ensures Scaled(s, 1.0 / c) == Divided(s, c)
  {
    forall n | 0 <= n < |s|
      ensures Scaled(s, 1.0 / c)[n] == Divided(s, c)[n]
    {
      TimesInverse(s[n], c);
    }
  }

  /** `x * (1 / s)` is `x / s`. */
  lemma TimesInverse(x: real, s: real)
    requires s != 0.0
    ensures x * (1.0 / s) == x / s
  {
    var inv := 1.0 / s;
    assert inv * s == 1.0;
    calc {
      x * inv * s;
      x * (inv * s);
      x;
    }
  }

  lemma Distribute(a: real, b: real, c: real)
    ensures a * c + b * c == (a + b) * c
  {
  }

  lemma {:induction false} SumScaled(s: seq<real>, c: real)
    ensures Sum(Scaled(s, c)) == Sum(s) * c
    decreases |s|
  {
    if s != [] {
      var k := |s| - 1;
      var t, init := Scaled(s, c), s[..k];
      forall n | 0 <= n < k
        ensures t[..k][n] == Scaled(init, c)[n]
      {
      }
      assert t[..k] == Scaled(init, c);
      SumScaled(init, c);
      calc {
        Sum(t);
        Sum(t[..k]) + t[k];
        Sum(init) * c + s[k] * c;
        { Distribute(Sum(init), s[k], c); }
        (Sum(init) + s[k]) * c;
      }
    }
  }

  lemma {:induction false} SumDivided(s: seq<real>, c: real)
    requires c != 0.0
    ensures Sum(Divided(s, c)) == Sum(s) / c
    decreases |s|
  {
    if s != [] {
      var k := |s| - 1;
      assert Divided(s, c)[..k] == Divided(s[..k], c);
      SumDivided(s[..k], c);
    }
  }

  /** Normalising by the total, either way the sources write it, leaves weights
      that add up to 1. */
  lemma NormalizedSumsToOne(s: seq<real>)
    requires Sum(s) != 0.0
    ensures Sum(Divided(s, Sum(s))) == 1.0
    ensures Sum(Scaled(s, 1.0 / Sum(s))) == 1.0
  {
    SumDivided(s, Sum(s));
    SumScaled(s, 1.0 / Sum(s));
  }
}
