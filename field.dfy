/** The sparse activation field `Dictionary<VectorNInt, float> aliveCells` and the
    per-position update rule that every generator applies to it. */
module Field {
  import opened Vectors

  /** Stored positions and their activation; an absent position reads as 0. */
  type Field = map<Pos, real>

  /** Every generator keeps a new value only when it is above 0.01. */
  const Threshold: real := 0.01

  /** `aliveCells.TryGetValue(position, out float value) ? value : 0f`. */
  function Get(f: Field, p: Pos): real
  {
    if p in f then f[p] else 0.0
  }

  /** All stored positions have the generator's dimension. */
  ghost predicate AllDim(f: Field, d: nat)
  {
    forall p :: p in f ==> |p| == d
  }

  /** The invariant of a field the generators produce: every stored value is in (0.01, 1]. */
  ghost predicate InRange(f: Field)
  {
    forall p :: p in f ==> Threshold < f[p] <= 1.0
  }

  /** `Math.Max(0f, Math.Min(1f, value))`. */
  function Clamp01(value: real): (r: real)
    ensures 0.0 <= r <= 1.0
    ensures 0.0 <= value <= 1.0 ==> r == value
    ensures value < 0.0 ==> r == 0.0
    ensures value > 1.0 ==> r == 1.0
  {
    var low := if 1.0 < value then 1.0 else value;
    if 0.0 > low then 0.0 else low
  }

  /** `Clamp01(currentValue + deltaT * (2 * growth - 1))`: a growth above one half
      raises the activation, one below one half lowers it, and the result stays
      in [0, 1] whatever the growth is. */
  function NextValue(current: real, deltaT: real, growth: real): (v: real)
    ensures 0.0 <= v <= 1.0
    ensures 0.0 <= deltaT && 0.0 <= current <= 1.0 && growth <= 0.5 ==> v <= current
    ensures 0.0 <= deltaT && 0.0 <= current <= 1.0 && growth >= 0.5 ==> v >= current
    ensures growth == 0.5 && 0.0 <= current <= 1.0 ==> v == current
  {
    Clamp01(current + deltaT * (2.0 * growth - 1.0))
  }
}
