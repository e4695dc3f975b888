/** The two-state hidden Markov model and the message passing shared by every
    inference routine: sensor lookup, normalisation, and the unnormalised
    forward and backward steps. */
module HmmModel {

  /** A hidden state: 0 is "rain", 1 is "no rain". */
  type State = i: int | 0 <= i < 2

  /** The observation symbol that selects emission row 0; every other symbol
      selects row 1. */
  const Positive: string := "T"

  /** A two-component vector indexed by state: a belief, a message, or a table row. */
  datatype Vec = Vec(v0: real, v1: real) {
    function At(i: State): real {
      if i == 0 then v0 else v1
    }

    function Sum(): real {
      v0 + v1
    }

    predicate NonNegative() {
      0.0 <= v0 && 0.0 <= v1
    }

    predicate Probabilities() {
      0.0 <= v0 <= 1.0 && 0.0 <= v1 <= 1.0
    }
  }

  /** The backward message that carries no future evidence. */
  const Ones: Vec := Vec(1.0, 1.0)

  /** Component-wise product. */
  function Times(a: Vec, b: Vec): (c: Vec)
    ensures a.NonNegative() && b.NonNegative() ==> c.NonNegative()
  {
    Vec(a.v0 * b.v0, a.v1 * b.v1)
  }

  /** Inner product: the mass of the component-wise product. */
  function Dot(a: Vec, b: Vec): real {
    Times(a, b).Sum()
  }

  function Scale(c: real, a: Vec): Vec {
    Vec(c * a.v0, c * a.v1)
  }

  /** A 2x2 table stored as its two rows. */
  datatype Matrix = Matrix(row0: Vec, row1: Vec) {
    function Row(i: State): Vec {
      if i == 0 then row0 else row1
    }

    function At(i: State, j: State): real {
      Row(i).At(j)
    }

    /** Each column is a pair (x, 1 - x). */
    predicate ColumnsComplementary() {
      row0.v0 + row1.v0 == 1.0 && row0.v1 + row1.v1 == 1.0
    }

    predicate Probabilities() {
      row0.Probabilities() && row1.Probabilities()
    }
  }

  /** `transition.At(i, j)` is the probability of moving to state i from state j;
      `emission.Row(0)` holds, per state, the probability of the positive symbol
      and `emission.Row(1)` that of the negative one; `initial` is the prior. */
  datatype HiddenMarkovModel = HiddenMarkovModel(transition: Matrix, emission: Matrix, initial: Vec)

  /** The shape every model built from five scalars has. */
  predicate WellFormed(h: HiddenMarkovModel) {
    h.transition.ColumnsComplementary()
    && h.emission.ColumnsComplementary()
    && h.initial.Sum() == 1.0
  }

  /** Every table entry is a probability. */
  predicate InRange(h: HiddenMarkovModel) {
    h.transition.Probabilities() && h.emission.Probabilities() && h.initial.Probabilities()
  }

  /** The model built from the five scalar inputs: prior of rain, rain after
      rain, rain after no rain, umbrella given rain, umbrella given no rain. */
  function Build(priorRain: real, rainGivenRain: real, rainGivenNoRain: real,
                 umbrellaGivenRain: real, umbrellaGivenNoRain: real): (h: HiddenMarkovModel)
    ensures WellFormed(h)
    ensures h.initial.At(0) == priorRain
    ensures h.transition.At(0, 0) == rainGivenRain && h.transition.At(0, 1) == rainGivenNoRain
    ensures h.emission.At(0, 0) == umbrellaGivenRain && h.emission.At(0, 1) == umbrellaGivenNoRain
    ensures InRange(h) <==>
      (0.0 <= priorRain <= 1.0 && 0.0 <= rainGivenRain <= 1.0 && 0.0 <= rainGivenNoRain <= 1.0
       && 0.0 <= umbrellaGivenRain <= 1.0 && 0.0 <= umbrellaGivenNoRain <= 1.0)
  {
    HiddenMarkovModel(
      Matrix(Vec(rainGivenRain, rainGivenNoRain), Vec(1.0 - rainGivenRain, 1.0 - rainGivenNoRain)),
      Matrix(Vec(umbrellaGivenRain, umbrellaGivenNoRain), Vec(1.0 - umbrellaGivenRain, 1.0 - umbrellaGivenNoRain)),
      Vec(priorRain, 1.0 - priorRain))
  }

  /** Every well-formed model is the one built from its five free entries. */
  lemma BuildCoversWellFormed(h: HiddenMarkovModel)
    requires WellFormed(h)
    ensures Build(h.initial.v0, h.transition.row0.v0, h.transition.row0.v1,
                  h.emission.row0.v0, h.emission.row0.v1) == h
  {
  }

  /** P(e | state) for both states. */
  function Sensor(h: HiddenMarkovModel, e: string): (s: Vec)
    ensures e == Positive ==> s == h.emission.row0
    ensures e != Positive ==> s == h.emission.row1
    ensures WellFormed(h) ==>
      forall k: State :: s.At(k) == (if e == Positive then h.emission.At(0, k) else 1.0 - h.emission.At(0, k))
    ensures InRange(h) ==> s.Probabilities()
  {
    if e == Positive then h.emission.row0 else h.emission.row1
  }

  /** The vector divided by its sum. */
  function Normalize(f: Vec): (r: Vec)
    requires f.Sum() != 0.0
    ensures r.Sum() == 1.0
    ensures f.NonNegative() ==> r.Probabilities()
  {
    var sum := f.v0 + f.v1;
    Vec(f.v0 / sum, f.v1 / sum)
  }

  /** Normalisation only rescales: the vector is its normalisation times its mass. */
  lemma NormalizeRescales(f: Vec)
    requires f.Sum() != 0.0
    ensures Scale(f.Sum(), Normalize(f)) == f
  {
  }

  /** The belief pushed one step through the transition table. */
  function Predict(h: HiddenMarkovModel, f: Vec): (p: Vec)
    ensures WellFormed(h) ==> p.Sum() == f.Sum()
    ensures InRange(h) && f.NonNegative() ==> p.NonNegative()
  {
    assert WellFormed(h) ==>
      f.v0 * h.transition.row0.v0 + f.v1 * h.transition.row0.v1
      + (f.v0 * h.transition.row1.v0 + f.v1 * h.transition.row1.v1) == f.v0 + f.v1 by {
      if WellFormed(h) {
        SplitByComplement(f.v0, h.transition.row0.v0, h.transition.row1.v0);
        SplitByComplement(f.v1, h.transition.row0.v1, h.transition.row1.v1);
      }
    }
    assert InRange(h) && f.NonNegative() ==>
      0.0 <= f.v0 * h.transition.row0.v0 + f.v1 * h.transition.row0.v1
      && 0.0 <= f.v0 * h.transition.row1.v0 + f.v1 * h.transition.row1.v1 by {
      if InRange(h) && f.NonNegative() {
        MulNonNegative(f.v0, h.transition.row0.v0);
        MulNonNegative(f.v1, h.transition.row0.v1);
        MulNonNegative(f.v0, h.transition.row1.v0);
        MulNonNegative(f.v1, h.transition.row1.v1);
      }
    }
    Vec(f.v0 * h.transition.row0.v0 + f.v1 * h.transition.row0.v1,
        f.v0 * h.transition.row1.v0 + f.v1 * h.transition.row1.v1)
  }

  /** One unnormalised forward step: predict, then weight by the sensor. */
  function Forward(h: HiddenMarkovModel, f: Vec, e: string): (m: Vec)
    ensures InRange(h) && f.NonNegative() ==> m.NonNegative()
    ensures WellFormed(h) && InRange(h) && f.NonNegative() ==> m.Sum() <= f.Sum()
  {
    assert InRange(h) && f.NonNegative() ==>
      0.0 <= Predict(h, f).v0 * Sensor(h, e).v0 && 0.0 <= Predict(h, f).v1 * Sensor(h, e).v1 by {
      if InRange(h) && f.NonNegative() {
        MulNonNegative(Predict(h, f).v0, Sensor(h, e).v0);
        MulNonNegative(Predict(h, f).v1, Sensor(h, e).v1);
      }
    }
    assert WellFormed(h) && InRange(h) && f.NonNegative() ==>
      Predict(h, f).v0 * Sensor(h, e).v0 + Predict(h, f).v1 * Sensor(h, e).v1 <= f.Sum() by {
      if WellFormed(h) && InRange(h) && f.NonNegative() {
        WeightedMassAtMost(Predict(h, f), Sensor(h, e), f.Sum());
      }
    }
    Vec(Predict(h, f).v0 * Sensor(h, e).v0, Predict(h, f).v1 * Sensor(h, e).v1)
  }

  lemma MulNonNegative(x: real, y: real)
    requires 0.0 <= x && 0.0 <= y
    ensures 0.0 <= x * y
  {
  }

  lemma MulAtMostOne(x: real, y: real)
    requires 0.0 <= x && y <= 1.0
    ensures x * y <= x
  {
    assert x * (1.0 - y) >= 0.0;
  }

  /** Weighting a non-negative vector by probabilities cannot add mass. */
  lemma WeightedMassAtMost(p: Vec, s: Vec, total: real)
    requires p.NonNegative() && s.Probabilities() && p.Sum() == total
    ensures p.v0 * s.v0 + p.v1 * s.v1 <= total
  {
    MulAtMostOne(p.v0, s.v0);
    MulAtMostOne(p.v1, s.v1);
  }

  /** x split along a complementary pair a + b = 1 adds back up to x. */
  lemma SplitByComplement(x: real, a: real, b: real)
    requires a + b == 1.0
    ensures x * a + x * b == x
  {
    assert x * a + x * b == x * (a + b);
  }

  lemma MulDistributes(c: real, x: real, y: real)
    ensures c * (x + y) == c * x + c * y
  {
  }

  /** A common non-zero factor cancels from a quotient. */
  lemma DivCancel(c: real, x: real, y: real, z: real)
    requires c != 0.0 && y + z != 0.0
    ensures (c * x) / (c * y + c * z) == x / (y + z)
  {
    assert c * y + c * z == c * (y + z);
  }

  /** One unnormalised backward step.  It weights the message by the sensor
      and then combines with `transition.At(j, i)`, the orientation the
      forward step uses. */
  function Backward(h: HiddenMarkovModel, b: Vec, e: string): (m: Vec)
    ensures m == Predict(h, Times(b, Sensor(h, e)))
    ensures InRange(h) && b.NonNegative() ==> m.NonNegative()
    ensures WellFormed(h) ==> m.Sum() == Times(b, Sensor(h, e)).Sum()
  {
    var sensor := Sensor(h, e);
    var prediction := Vec(b.v0 * sensor.v0, b.v1 * sensor.v1);
    var t := h.transition;
    Vec(prediction.v0 * t.row0.v0 + prediction.v1 * t.row0.v1,
        prediction.v0 * t.row1.v0 + prediction.v1 * t.row1.v1)
  }

  /** Both steps are linear in the message, so scaling commutes with them. */
  lemma ForwardScales(h: HiddenMarkovModel, c: real, f: Vec, e: string)
    ensures Forward(h, Scale(c, f), e) == Scale(c, Forward(h, f, e))
  {
    var t := h.transition;
    var s := Sensor(h, e);
    calc {
      (c * f.v0 * t.At(0, 0) + c * f.v1 * t.At(0, 1)) * s.v0;
      c * ((f.v0 * t.At(0, 0) + f.v1 * t.At(0, 1)) * s.v0);
    }
    calc {
      (c * f.v0 * t.At(1, 0) + c * f.v1 * t.At(1, 1)) * s.v1;
      c * ((f.v0 * t.At(1, 0) + f.v1 * t.At(1, 1)) * s.v1);
    }
  }

  /** Normalisation forgets any non-zero scale factor. */
  lemma NormalizeScaleInvariant(c: real, f: Vec)
    requires c != 0.0 && f.Sum() != 0.0
    ensures Scale(c, f).Sum() == c * f.Sum()
    ensures Normalize(Scale(c, f)) == Normalize(f)
  {
    assert Scale(c, f).Sum() == c * f.Sum() by {
      MulDistributes(c, f.v0, f.v1);
    }
    assert Normalize(Scale(c, f)).v0 == Normalize(f).v0 by {
      DivCancel(c, f.v0, f.v0, f.v1);
    }
    assert Normalize(Scale(c, f)).v1 == Normalize(f).v1 by {
      DivCancel(c, f.v1, f.v0, f.v1);
    }
  }

  /** A distribution is its own normalisation. */
  lemma NormalizeFixesDistributions(f: Vec)
    requires f.Sum() == 1.0
    ensures Normalize(f) == f
  {
  }
}
