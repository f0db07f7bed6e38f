// Feedback pieces of the engine over exact reals: the pressure record, the occupancy average,
// the gain controller and the batch-size controller. Each class updates its fields in place and is
// specified by the step function the concurrent model uses.
module Controllers {
  import opened Bits
  import opened Options

  datatype Observation = Observation(value: real, generation: nat, sampled: nat, available: bool)

  const NO_OBSERVATION := Observation(0.0, 0, 0, false)

  predicate Fraction(x: real) { 0.0 <= x <= 1.0 }

  // ---- Occupancy average ----

  predicate ValidGain(gain: real) { 0.0 < gain <= 1.0 }

  function EmaStep(gain: real, ema: real, raw: real): real {
    ema + gain * (raw - ema)
  }

  lemma Convex(gain: real, a: real, b: real, lo: real, hi: real)
    requires Fraction(gain) && lo <= a <= hi && lo <= b <= hi
    ensures lo <= EmaStep(gain, a, b) <= hi
  {
    PartialStep(gain, a, b - a, lo, hi);
  }

  lemma PartialStep(gain: real, a: real, d: real, lo: real, hi: real)
    requires Fraction(gain) && lo <= a <= hi && lo <= a + d <= hi
    ensures lo <= a + gain * d <= hi
  {
    Shorten(gain, d);
    Between(a, d, gain * d, lo, hi);
  }

  lemma Between(a: real, d: real, p: real, lo: real, hi: real)
    requires lo <= a <= hi && lo <= a + d <= hi
    requires if d >= 0.0 then 0.0 <= p <= d else d <= p <= 0.0
    ensures lo <= a + p <= hi
  {
  }

  lemma Shorten(k: real, d: real)
    requires Fraction(k)
    ensures if d >= 0.0 then 0.0 <= k * d <= d else d <= k * d <= 0.0
  {
  }

  // The two ways the sources write one averaging step agree.
  lemma EmaForms(gain: real, a: real, b: real)
    ensures EmaStep(gain, a, b) == (1.0 - gain) * a + gain * b
  {
    assert (1.0 - gain) * a == a - gain * a;
  }

  lemma Scale(k: real, a: real, b: real)
    requires k >= 0.0 && a <= b
    ensures k * a <= k * b
  {
  }

  // ---- Gain controller ----

  function Clamp(v: real, lo: real, hi: real): real {
    if v < lo then lo else if hi < v then hi else v
  }

  predicate ValidAlpha(lo: real, hi: real, delta: real, initial: real) {
    0.0 < lo <= hi <= 1.0 && delta > 0.0 && lo <= initial <= hi
  }

  function AlphaStep(lo: real, hi: real, delta: real, current: real, pressure: real): real {
    var target := lo + (hi - lo) * pressure;
    Clamp(current + Clamp(target - current, -delta, delta), lo, hi)
  }

  // ---- Batch-size controller ----

  datatype BatchLaw = BatchLaw(minimum: nat, maximum: nat, low: real, high: real, shrink: real, grow: real)

  datatype BatchControl = BatchControl(current: nat, direction: int, actions: nat, changes: nat)

  predicate ValidLaw(law: BatchLaw, initial: nat) {
    && Fraction(law.low) && Fraction(law.high)
    && 0 < law.minimum <= law.maximum && law.minimum <= initial <= law.maximum && law.low < law.high
    && 0.0 < law.shrink < 1.0 && law.grow > 1.0
  }

  function Scaled(n: nat, k: real): int {
    (n as real * k).Floor
  }

  lemma ShrinkLowers(n: nat, k: real)
    requires n > 0 && 0.0 < k < 1.0
    ensures 0 <= Scaled(n, k) < n
  {
    var x := n as real;
    assert x * k == x - x * (1.0 - k);
    Scale(x, 0.0, k);
    StrictProduct(x, 1.0 - k);
  }

  lemma StrictProduct(x: real, y: real)
    requires x > 0.0 && y > 0.0
    ensures x * y > 0.0
  {
  }

  function Resize(law: BatchLaw, current: nat, pressure: real): int {
    if pressure > law.high && current > law.minimum then
      var shrunk := Scaled(current, law.shrink);
      if law.minimum < shrunk then shrunk else law.minimum
    else if pressure < law.low && current < law.maximum then
      var scaled := Scaled(current, law.grow);
      var grown := if current + 1 < scaled then scaled else current + 1;
      if grown < law.maximum then grown else law.maximum
    else current
  }

  function BatchStep(law: BatchLaw, b: BatchControl, pressure: real): BatchControl {
    var next := Resize(law, b.current, pressure);
    var direction := if next > b.current then 1 else if next < b.current then -1 else 0;
    if direction == 0 then b
    else BatchControl(if next < 0 then 0 else next, direction, b.actions + 1,
                      b.changes + if b.direction != 0 && direction != b.direction then 1 else 0)
  }

  predicate Bounded(law: BatchLaw, b: BatchControl) {
    law.minimum <= b.current <= law.maximum && b.direction in {-1, 0, 1} && b.changes <= b.actions
  }

  // The batch size never leaves its bounds, shrinks only above the high threshold, grows only below
  // the low one, and always moves when it may: there is no size at which integer rounding traps it.
  lemma BatchStepBounded(law: BatchLaw, b: BatchControl, pressure: real)
    requires ValidLaw(law, b.current) && Bounded(law, b)
    ensures var b' := BatchStep(law, b, pressure);
            && Bounded(law, b') && b'.current == Resize(law, b.current, pressure)
            && (pressure > law.high && b.current > law.minimum <==> b'.current < b.current)
            && (pressure < law.low && b.current < law.maximum <==> b'.current > b.current)
            && b'.actions == b.actions + if b'.current != b.current then 1 else 0
  {
    ShrinkLowers(b.current, law.shrink);
  }

  // ---- Classes ----

  class PressureSignal {
    var observation: Observation

    constructor ()
      ensures observation == NO_OBSERVATION
    {
      observation := NO_OBSERVATION;
    }

    // False stands for a thrown exception; the record is then unchanged.
    method Store(value: real, sampled: nat) returns (ok: bool)
      modifies this
      ensures ok <==> Storable(old(observation), value, sampled)
      ensures observation == if ok then Stored(old(observation), value, sampled) else old(observation)
    {
      if value < 0.0 || value > 1.0 { return false; }
      if observation.available && sampled < observation.sampled { return false; }
      if observation.generation == WORD - 1 { return false; }
      observation := Observation(value, observation.generation + 1, sampled, true);
      return true;
    }
  }

  predicate Storable(o: Observation, value: real, sampled: nat) {
    Fraction(value) && !(o.available && sampled < o.sampled) && o.generation != WORD - 1
  }

  function Stored(o: Observation, value: real, sampled: nat): Observation {
    Observation(value, o.generation + 1, sampled, true)
  }

  class OccupancyEMA {
    const gain: real
    var value: real

    constructor (gain: real)
      requires ValidGain(gain)
      ensures this.gain == gain && value == 0.0
    {
      this.gain := gain;
      value := 0.0;
    }

    ghost predicate Valid() reads this { ValidGain(gain) && Fraction(value) }

    // None stands for the exception on a value outside [0, 1]; nothing changes then.
    method Update(raw: real) returns (r: Option<real>)
      requires Valid()
      modifies this
      ensures Valid() && (r.Some? <==> Fraction(raw))
      ensures r.Some? ==> r.value == value == EmaStep(gain, old(value), raw)
      ensures r.None? ==> value == old(value)
    {
      if !Fraction(raw) { return None; }
      var next := value + gain * (raw - value);
      Convex(gain, value, raw, 0.0, 1.0);
      assert next == EmaStep(gain, value, raw);
      value := next;
      r := Some(value);
    }
  }

  class AlphaController {
    const minimum: real
    const maximum: real
    const delta: real
    var current: real

    constructor (minimum: real, maximum: real, delta: real, initial: real)
      requires ValidAlpha(minimum, maximum, delta, initial)
      ensures this.minimum == minimum && this.maximum == maximum && this.delta == delta && current == initial
    {
      this.minimum, this.maximum, this.delta, current := minimum, maximum, delta, initial;
    }

    ghost predicate Valid() reads this { ValidAlpha(minimum, maximum, delta, current) }

    // None stands for the exception on a pressure outside [0, 1]; nothing changes then.
    method Update(pressure: real) returns (r: Option<real>)
      requires Valid()
      modifies this
      ensures Valid() && (r.Some? <==> Fraction(pressure))
      ensures r.Some? ==> r.value == current == AlphaStep(minimum, maximum, delta, old(current), pressure)
      ensures r.None? ==> current == old(current)
      ensures -delta <= current - old(current) <= delta
    {
      if !Fraction(pressure) { return None; }
      var target := minimum + (maximum - minimum) * pressure;
      current := Clamp(current + Clamp(target - current, -delta, delta), minimum, maximum);
      r := Some(current);
    }
  }

  class MultiplicativeBatchController {
    const law: BatchLaw
    var current: nat
    var lastDirection: int
    var actions: nat
    var changes: nat

    constructor (law: BatchLaw, initial: nat)
      requires ValidLaw(law, initial)
      ensures this.law == law && State() == BatchControl(initial, 0, 0, 0)
    {
      this.law, current, lastDirection, actions, changes := law, initial, 0, 0, 0;
    }

    function State(): BatchControl reads this { BatchControl(current, lastDirection, actions, changes) }

    ghost predicate Valid() reads this { ValidLaw(law, current) && Bounded(law, State()) }

    // None stands for the exception on a pressure outside [0, 1]; nothing changes then.
    method Update(pressure: real) returns (r: Option<nat>)
      requires Valid()
      modifies this
      ensures Valid() && (r.Some? <==> Fraction(pressure))
      ensures r.Some? ==> r.value == current && State() == BatchStep(law, old(State()), pressure)
      ensures r.None? ==> State() == old(State())
    {
      if !Fraction(pressure) { return None; }
      BatchStepBounded(law, State(), pressure);
      var previous := current;
      if pressure > law.high && current > law.minimum {
        var shrunk := Scaled(current, law.shrink);
        current := if law.minimum < shrunk then shrunk else law.minimum;
      } else if pressure < law.low && current < law.maximum {
        var scaled := Scaled(current, law.grow);
        var grown := if current + 1 < scaled then scaled else current + 1;
        current := if grown < law.maximum then grown else law.maximum;
      }
      var direction := if current > previous then 1 else if current < previous then -1 else 0;
      if direction != 0 {
        if lastDirection != 0 && direction != lastDirection { changes := changes + 1; }
        lastDirection := direction;
        actions := actions + 1;
      }
      r := Some(current);
    }
  }
}
