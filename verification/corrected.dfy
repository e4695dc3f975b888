/** Two places where the smoothing code departs from forward-backward
    smoothing, each shown on a concrete model, and the corrected definitions
    with the properties the algorithm is meant to have.

    1. The backward step combines with `transition.At(j, i)`; the backward
       message of state j needs `transition.At(i, j)`, the probability of
       moving from j to i.  The two agree only when the table is symmetric.
    2. Slot i - 1 of the result list holds time i, yet query k reads slot k,
       so time k + 1 is returned, and k = t reads the slot written last,
       time 0. */
module HmmCorrected {
  import opened Results
  import opened HmmModel
  import opened HmmLikelihood
  import opened HmmFiltering
  import opened HmmSmoothing
  import PyList

  /** The backward step through the transposed table:
      message[j] = sum over i of b[i] * sensor(e)[i] * transition.At(i, j). */
  function BackwardTransposed(h: HiddenMarkovModel, b: Vec, e: string): (m: Vec)
    ensures InRange(h) && b.NonNegative() ==> m.NonNegative()
  {
    var w := Times(b, Sensor(h, e));
    var t := h.transition;
    assert InRange(h) && b.NonNegative() ==>
      0.0 <= w.v0 * t.row0.v0 + w.v1 * t.row1.v0 && 0.0 <= w.v0 * t.row0.v1 + w.v1 * t.row1.v1 by {
      if InRange(h) && b.NonNegative() {
        MulNonNegative(w.v0, t.row0.v0);
        MulNonNegative(w.v1, t.row1.v0);
        MulNonNegative(w.v0, t.row0.v1);
        MulNonNegative(w.v1, t.row1.v1);
      }
    }
    Vec(w.v0 * t.row0.v0 + w.v1 * t.row1.v0, w.v0 * t.row0.v1 + w.v1 * t.row1.v1)
  }

  /** The transposed step is the adjoint of the forward step: pairing a
      forward message with a backward one gives the same mass on either side
      of a time step. */
  lemma ForwardBackwardAdjoint(h: HiddenMarkovModel, f: Vec, b: Vec, e: string)
    ensures Dot(Forward(h, f, e), b) == Dot(f, BackwardTransposed(h, b, e))
  {
    var t := h.transition;
    var s := Sensor(h, e);
    var p := Predict(h, f);
    assert Forward(h, f, e) == Vec(p.v0 * s.v0, p.v1 * s.v1);
    calc {
      Dot(Forward(h, f, e), b);
      (f.v0 * t.At(0, 0) + f.v1 * t.At(0, 1)) * s.v0 * b.v0
        + (f.v0 * t.At(1, 0) + f.v1 * t.At(1, 1)) * s.v1 * b.v1;
      f.v0 * (b.v0 * s.v0 * t.At(0, 0) + b.v1 * s.v1 * t.At(1, 0))
        + f.v1 * (b.v0 * s.v0 * t.At(0, 1) + b.v1 * s.v1 * t.At(1, 1));
      Dot(f, BackwardTransposed(h, b, e));
    }
  }

  /** With a symmetric transition table the source's step is the transposed
      one, which is why the classic umbrella model does not expose the
      difference. */
  lemma BackwardAgreesWhenSymmetric(h: HiddenMarkovModel, b: Vec, e: string)
    requires h.transition.At(0, 1) == h.transition.At(1, 0)
    ensures Backward(h, b, e) == BackwardTransposed(h, b, e)
  {
  }

  function BackwardTransposedFrom(h: HiddenMarkovModel, ev: seq<string>, i: nat): (b: Vec)
    requires i <= |ev|
    ensures i == |ev| ==> b == Ones
    ensures InRange(h) ==> b.NonNegative()
    decreases |ev| - i
  {
    if i == |ev| then Ones else BackwardTransposed(h, BackwardTransposedFrom(h, ev, i + 1), ev[i])
  }

  /** At every time the forward message paired with the transposed backward
      message has the same mass, the likelihood of all the evidence. */
  lemma {:induction false} ForwardBackwardConsistency(h: HiddenMarkovModel, ev: seq<string>, i: nat)
    requires i <= |ev|
    ensures Dot(ForwardMessages(h, ev)[i], BackwardTransposedFrom(h, ev, i)) == Likelihood(h, ev)
    decreases |ev| - i
  {
    var fv := ForwardMessages(h, ev);
    if i == |ev| {
      LastForwardMessageIsFold(h, ev);
      LikelihoodIsFoldMass(h, ev, 0, h.initial);
    } else {
      ForwardBackwardConsistency(h, ev, i + 1);
      ForwardBackwardAdjoint(h, fv[i], BackwardTransposedFrom(h, ev, i + 1), ev[i]);
    }
  }

  /** Smoothing as intended: the belief at time k, 1 <= k <= t, given all the
      evidence. */
  function SmoothedCorrected(h: HiddenMarkovModel, ev: seq<string>, k: int): (r: Result<Vec>)
    ensures r.Ok? ==> 1 <= k <= |ev|
    ensures r.Ok? ==> r.value.Sum() == 1.0
    ensures r.Ok? && InRange(h) ==> r.value.Probabilities()
  {
    if k < 1 || k > |ev| then Err(IndexOutOfRange)
    else
      var c := Times(ForwardMessages(h, ev)[k], BackwardTransposedFrom(h, ev, k));
      if c.Sum() == 0.0 then Err(ZeroDivision) else Ok(Normalize(c))
  }

  /** Every time in range normalises a vector whose mass is the likelihood,
      so a query succeeds exactly when the evidence is possible. */
  lemma SmoothedCorrectedSucceedsIffPossible(h: HiddenMarkovModel, ev: seq<string>, k: int)
    requires 1 <= k <= |ev|
    ensures SmoothedCorrected(h, ev, k).Ok? <==> Likelihood(h, ev) != 0.0
  {
    ForwardBackwardConsistency(h, ev, k);
  }

  /** At the last time there is no future evidence: smoothing is filtering. */
  lemma SmoothedCorrectedAtEndIsFiltering(h: HiddenMarkovModel, ev: seq<string>)
    requires InRange(h) && |ev| > 0
    ensures SmoothedCorrected(h, ev, |ev|) == Filtering(h, ev)
  {
    var t := |ev|;
    LastForwardMessageIsFold(h, ev);
    var joint := ForwardFold(h, ev, 0, h.initial);
    assert Times(ForwardMessages(h, ev)[t], Ones) == joint;
    FilteringAgreesWithLikelihood(h, ev);
  }

  /** A model whose transition table is not symmetric: rain persists with 0.9,
      dry weather turns to rain with 0.5. */
  function Skewed(): (h: HiddenMarkovModel)
    ensures WellFormed(h) && InRange(h)
  {
    HiddenMarkovModel(Matrix(Vec(0.9, 0.5), Vec(0.1, 0.5)), Matrix(Vec(0.9, 0.2), Vec(0.1, 0.8)), Vec(0.5, 0.5))
  }

  lemma SkewedIsBuilt()
    ensures Skewed() == Build(0.5, 0.9, 0.5, 0.9, 0.2)
  {
  }

  /** One forward step of an umbrella day under the skewed model, from the prior. */
  lemma SkewedForwardOne(h: HiddenMarkovModel)
    requires h == Skewed()
    ensures Forward(h, h.initial, "T") == Vec(0.63, 0.06)
  {
    assert Sensor(h, "T") == Vec(0.9, 0.2);
    assert Predict(h, h.initial) == Vec(0.7, 0.3);
  }

  /** The next forward step of an umbrella day under the skewed model. */
  lemma SkewedForwardTwo(h: HiddenMarkovModel)
    requires h == Skewed()
    ensures Forward(h, Vec(0.63, 0.06), "T") == Vec(0.5373, 0.0186)
  {
    assert Sensor(h, "T") == Vec(0.9, 0.2);
    assert Predict(h, Vec(0.63, 0.06)) == Vec(0.597, 0.093);
  }

  /** The source's backward step for an umbrella day under the skewed model,
      from the message that carries no future evidence. */
  lemma SkewedBackwardOne(h: HiddenMarkovModel)
    requires h == Skewed()
    ensures Backward(h, Ones, "T") == Vec(0.91, 0.19)
  {
    assert Sensor(h, "T") == Vec(0.9, 0.2);
    assert Predict(h, Vec(0.9, 0.2)) == Vec(0.91, 0.19);
  }

  /** The source's next backward step for an umbrella day under the skewed model. */
  lemma SkewedBackwardTwo(h: HiddenMarkovModel)
    requires h == Skewed()
    ensures Backward(h, Vec(0.91, 0.19), "T") == Vec(0.7561, 0.1009)
  {
    assert Sensor(h, "T") == Vec(0.9, 0.2);
    assert Predict(h, Vec(0.819, 0.038)) == Vec(0.7561, 0.1009);
  }

  /** The transposed backward step for an umbrella day under the skewed model. */
  lemma SkewedTransposedOne(h: HiddenMarkovModel)
    requires h == Skewed()
    ensures BackwardTransposed(h, Ones, "T") == Vec(0.83, 0.55)
  {
    assert h.transition == Matrix(Vec(0.9, 0.5), Vec(0.1, 0.5));
    assert Times(Ones, Sensor(h, "T")) == Vec(0.9, 0.2);
  }

  /** One day of evidence: every message is a single step from its start. */
  lemma OneDayMessages(h: HiddenMarkovModel, ev: seq<string>)
    requires |ev| == 1
    ensures ForwardMessages(h, ev)[1] == Forward(h, h.initial, ev[0])
    ensures BackwardFrom(h, ev, 0) == Backward(h, Ones, ev[0])
    ensures BackwardTransposedFrom(h, ev, 0) == BackwardTransposed(h, Ones, ev[0])
    ensures Likelihood(h, ev) == Forward(h, h.initial, ev[0]).Sum()
  {
  }

  /** Two days of evidence: the messages two steps deep. */
  lemma TwoDayMessages(h: HiddenMarkovModel, ev: seq<string>)
    requires |ev| == 2
    ensures ForwardMessages(h, ev)[1] == Forward(h, h.initial, ev[0])
    ensures ForwardMessages(h, ev)[2] == Forward(h, ForwardMessages(h, ev)[1], ev[1])
    ensures BackwardFrom(h, ev, 1) == Backward(h, Ones, ev[1])
    ensures BackwardFrom(h, ev, 0) == Backward(h, BackwardFrom(h, ev, 1), ev[0])
    ensures BackwardTransposedFrom(h, ev, 1) == BackwardTransposed(h, Ones, ev[1])
  {
  }

  /** The sweep succeeds on one day when neither combination is massless. */
  lemma OneDayHasMass(h: HiddenMarkovModel, ev: seq<string>)
    requires |ev| == 1
    requires Combined(h, ev, 0).Sum() != 0.0 && Combined(h, ev, 1).Sum() != 0.0
    ensures !HasZeroMass(h, ev)
  {
  }

  /** The sweep succeeds on two days when no combination is massless. */
  lemma TwoDaysHaveMass(h: HiddenMarkovModel, ev: seq<string>)
    requires |ev| == 2
    requires Combined(h, ev, 0).Sum() != 0.0 && Combined(h, ev, 1).Sum() != 0.0
    requires Combined(h, ev, 2).Sum() != 0.0
    ensures !HasZeroMass(h, ev)
  {
  }

  /** The source's backward message of one umbrella day, skewed model,
      paired with the prior. */
  lemma SkewedOneDayBackwardMass(h: HiddenMarkovModel, ev: seq<string>)
    requires h == Skewed() && |ev| == 1 && ev[0] == "T"
    ensures Dot(h.initial, BackwardFrom(h, ev, 0)) == 0.55
  {
    OneDayMessages(h, ev);
    SkewedBackwardOne(h);
    assert h.initial == Vec(0.5, 0.5);
  }

  /** One umbrella day has probability 0.69 under the skewed model. */
  lemma SkewedOneDayLikelihood(h: HiddenMarkovModel, ev: seq<string>)
    requires h == Skewed() && |ev| == 1 && ev[0] == "T"
    ensures Likelihood(h, ev) == 0.69
  {
    OneDayMessages(h, ev);
    SkewedForwardOne(h);
  }

  /** The source's answer read off the combination its writer normalised. */
  lemma SlotFromCombination(h: HiddenMarkovModel, ev: seq<string>, k: int, c: Vec)
    ensures !HasZeroMass(h, ev) && |ev| > 0 && PyList.ValidIndex(|ev| + 1, k)
      && Combined(h, ev, WriterOf(|ev|, PyList.Resolve(|ev| + 1, k))) == c
      ==> SmoothedAt(h, ev, k) == Ok(Normalize(c))
  {
  }

  /** The corrected answer read off the two messages at time k. */
  lemma CorrectedFromMessages(h: HiddenMarkovModel, ev: seq<string>, k: int, f: Vec, b: Vec)
    requires 1 <= k <= |ev|
    requires ForwardMessages(h, ev)[k] == f && BackwardTransposedFrom(h, ev, k) == b
    requires Times(f, b).Sum() != 0.0
    ensures SmoothedCorrected(h, ev, k) == Ok(Normalize(Times(f, b)))
  {
  }

  /** On one umbrella day the source's backward message pairs with the prior
      to 0.55, not to the likelihood 0.69, while the transposed one gives 0.69. */
  lemma AsWrittenBackwardBreaksConsistency(h: HiddenMarkovModel, ev: seq<string>)
    requires h == Skewed() && |ev| == 1 && ev[0] == "T"
    ensures Dot(h.initial, BackwardFrom(h, ev, 0)) == 0.55
    ensures Likelihood(h, ev) == 0.69
    ensures Dot(h.initial, BackwardTransposedFrom(h, ev, 0)) == 0.69
  {
    SkewedOneDayBackwardMass(h, ev);
    SkewedOneDayLikelihood(h, ev);
    ForwardBackwardConsistency(h, ev, 0);
  }

  /** The forward message after the first of two umbrella days, skewed model. */
  lemma SkewedDayOneForward(h: HiddenMarkovModel, ev: seq<string>)
    requires h == Skewed() && |ev| == 2 && ev[0] == "T" && ev[1] == "T"
    ensures ForwardMessages(h, ev)[1] == Vec(0.63, 0.06)
  {
    TwoDayMessages(h, ev);
    SkewedForwardOne(h);
  }

  /** The forward message after both umbrella days, skewed model. */
  lemma SkewedDayTwoForward(h: HiddenMarkovModel, ev: seq<string>)
    requires h == Skewed() && |ev| == 2 && ev[0] == "T" && ev[1] == "T"
    ensures ForwardMessages(h, ev)[2] == Vec(0.5373, 0.0186)
  {
    TwoDayMessages(h, ev);
    SkewedDayOneForward(h, ev);
    SkewedForwardTwo(h);
  }

  /** The source's backward message at position 1 of two umbrella days. */
  lemma SkewedDayOneBackward(h: HiddenMarkovModel, ev: seq<string>)
    requires h == Skewed() && |ev| == 2 && ev[0] == "T" && ev[1] == "T"
    ensures BackwardFrom(h, ev, 1) == Vec(0.91, 0.19)
  {
    TwoDayMessages(h, ev);
    SkewedBackwardOne(h);
  }

  /** The source's backward message at position 0 of two umbrella days. */
  lemma SkewedDayZeroBackward(h: HiddenMarkovModel, ev: seq<string>)
    requires h == Skewed() && |ev| == 2 && ev[0] == "T" && ev[1] == "T"
    ensures BackwardFrom(h, ev, 0) == Vec(0.7561, 0.1009)
  {
    TwoDayMessages(h, ev);
    SkewedDayOneBackward(h, ev);
    SkewedBackwardTwo(h);
  }

  /** What the source's sweep normalises at position 0 of two umbrella days. */
  lemma SkewedCombinedZero(h: HiddenMarkovModel, ev: seq<string>)
    requires h == Skewed() && |ev| == 2 && ev[0] == "T" && ev[1] == "T"
    ensures Combined(h, ev, 0) == Vec(0.37805, 0.05045)
  {
    SkewedDayZeroBackward(h, ev);
  }

  /** What the source's sweep normalises at position 1 of two umbrella days. */
  lemma SkewedCombinedOne(h: HiddenMarkovModel, ev: seq<string>)
    requires h == Skewed() && |ev| == 2 && ev[0] == "T" && ev[1] == "T"
    ensures Combined(h, ev, 1) == Vec(0.5733, 0.0114)
  {
    SkewedDayOneForward(h, ev);
    SkewedDayOneBackward(h, ev);
  }

  /** What the source's sweep normalises at position 2 of two umbrella days. */
  lemma SkewedCombinedTwo(h: HiddenMarkovModel, ev: seq<string>)
    requires h == Skewed() && |ev| == 2 && ev[0] == "T" && ev[1] == "T"
    ensures Combined(h, ev, 2) == Vec(0.5373, 0.0186)
  {
    SkewedDayTwoForward(h, ev);
  }

  /** No combination of the two umbrella days is massless. */
  lemma SkewedTwoDaysHaveMass(h: HiddenMarkovModel, ev: seq<string>)
    requires h == Skewed() && |ev| == 2 && ev[0] == "T" && ev[1] == "T"
    ensures !HasZeroMass(h, ev)
  {
    SkewedMassAt(h, ev, 0);
    SkewedMassAt(h, ev, 1);
    SkewedMassAt(h, ev, 2);
    TwoDaysHaveMass(h, ev);
  }

  lemma SkewedMassAt(h: HiddenMarkovModel, ev: seq<string>, i: nat)
    requires h == Skewed() && |ev| == 2 && ev[0] == "T" && ev[1] == "T" && i <= 2
    ensures Combined(h, ev, i).Sum() != 0.0
  {
    if i == 0 {
      SkewedCombinedZero(h, ev);
    } else if i == 1 {
      SkewedCombinedOne(h, ev);
    } else {
      SkewedCombinedTwo(h, ev);
    }
  }

  lemma SlotZeroArithmetic()
    ensures Normalize(Vec(0.5733, 0.0114)) == Vec(5733.0 / 5847.0, 114.0 / 5847.0)
  {
  }

  /** On two umbrella days the source's slot 0 holds time 1 and reads
      5733/5847 (about 0.98) for rain. */
  lemma AsWrittenSlotZero(h: HiddenMarkovModel, ev: seq<string>)
    requires h == Skewed() && |ev| == 2 && ev[0] == "T" && ev[1] == "T"
    ensures SmoothedAt(h, ev, 0) == Ok(Vec(5733.0 / 5847.0, 114.0 / 5847.0))
  {
    SkewedTwoDaysHaveMass(h, ev);
    SkewedCombinedOne(h, ev);
    SlotZeroArithmetic();
    SlotFromCombination(h, ev, 0, Vec(0.5733, 0.0114));
  }

  /** The transposed backward message at position 1 of two umbrella days. */
  lemma SkewedDayOneTransposed(h: HiddenMarkovModel, ev: seq<string>)
    requires h == Skewed() && |ev| == 2 && ev[0] == "T" && ev[1] == "T"
    ensures BackwardTransposedFrom(h, ev, 1) == Vec(0.83, 0.55)
  {
    TwoDayMessages(h, ev);
    SkewedTransposedOne(h);
  }

  /** The belief at time 1 of the same two days, with the transposed backward
      message, is 5229/5559 (about 0.94). */
  lemma CorrectedTimeOne(h: HiddenMarkovModel, ev: seq<string>)
    requires h == Skewed() && |ev| == 2 && ev[0] == "T" && ev[1] == "T"
    ensures SmoothedCorrected(h, ev, 1) == Ok(Vec(5229.0 / 5559.0, 330.0 / 5559.0))
  {
    SkewedDayOneForward(h, ev);
    SkewedDayOneTransposed(h, ev);
    SkewedTimeOneArithmetic();
    CorrectedFromMessages(h, ev, 1, Vec(0.63, 0.06), Vec(0.83, 0.55));
  }

  lemma SkewedTimeOneArithmetic()
    ensures Times(Vec(0.63, 0.06), Vec(0.83, 0.55)).Sum() != 0.0
    ensures Normalize(Times(Vec(0.63, 0.06), Vec(0.83, 0.55))) == Vec(5229.0 / 5559.0, 330.0 / 5559.0)
  {
    assert Times(Vec(0.63, 0.06), Vec(0.83, 0.55)) == Vec(0.5229, 0.033);
  }

  /** On two umbrella days the source's query for time 1 (slot 0) reads
      5733/5847 (about 0.98) for rain, where the belief at time 1 is
      5229/5559 (about 0.94). */
  lemma AsWrittenSmoothingMisweighs(h: HiddenMarkovModel, ev: seq<string>)
    requires h == Skewed() && |ev| == 2 && ev[0] == "T" && ev[1] == "T"
    ensures SmoothedAt(h, ev, 0) == Ok(Vec(5733.0 / 5847.0, 114.0 / 5847.0))
    ensures SmoothedCorrected(h, ev, 1) == Ok(Vec(5229.0 / 5559.0, 330.0 / 5559.0))
  {
    AsWrittenSlotZero(h, ev);
    CorrectedTimeOne(h, ev);
  }

  /** The forward step of an umbrella day under the classic model. */
  lemma UmbrellaForwardOne(h: HiddenMarkovModel)
    requires h == Umbrella()
    ensures Forward(h, h.initial, "T") == Vec(0.45, 0.1)
  {
    assert Sensor(h, "T") == Vec(0.9, 0.2);
    assert Predict(h, h.initial) == Vec(0.5, 0.5);
  }

  /** The source's backward step of an umbrella day under the classic model. */
  lemma UmbrellaBackwardOne(h: HiddenMarkovModel)
    requires h == Umbrella()
    ensures Backward(h, Ones, "T") == Vec(0.69, 0.41)
  {
    assert Sensor(h, "T") == Vec(0.9, 0.2);
    assert Predict(h, Vec(0.9, 0.2)) == Vec(0.69, 0.41);
  }

  /** What the source's sweep normalises at position 0 of one umbrella day. */
  lemma UmbrellaCombinedZero(h: HiddenMarkovModel, ev: seq<string>)
    requires h == Umbrella() && |ev| == 1 && ev[0] == "T"
    ensures Combined(h, ev, 0) == Vec(0.345, 0.205)
  {
    OneDayMessages(h, ev);
    UmbrellaBackwardOne(h);
  }

  /** What the source's sweep normalises at position 1 of one umbrella day. */
  lemma UmbrellaCombinedOne(h: HiddenMarkovModel, ev: seq<string>)
    requires h == Umbrella() && |ev| == 1 && ev[0] == "T"
    ensures Combined(h, ev, 1) == Vec(0.45, 0.1)
  {
    OneDayMessages(h, ev);
    UmbrellaForwardOne(h);
  }

  /** Neither combination of one umbrella day is massless. */
  lemma UmbrellaOneDayHasMass(h: HiddenMarkovModel, ev: seq<string>)
    requires h == Umbrella() && |ev| == 1 && ev[0] == "T"
    ensures !HasZeroMass(h, ev)
  {
    UmbrellaCombinedZero(h, ev);
    UmbrellaCombinedOne(h, ev);
    OneDayHasMass(h, ev);
  }

  lemma SlotOneArithmetic()
    ensures Normalize(Vec(0.345, 0.205)) == Vec(69.0 / 110.0, 41.0 / 110.0)
  {
  }

  /** The source's answer to query k = t = 1 on one umbrella day: the slot
      written last, the belief at time 0, 69/110 (about 0.63). */
  lemma AsWrittenSlotOne(h: HiddenMarkovModel, ev: seq<string>)
    requires h == Umbrella() && |ev| == 1 && ev[0] == "T"
    ensures SmoothedAt(h, ev, 1) == Ok(Vec(69.0 / 110.0, 41.0 / 110.0))
  {
    UmbrellaOneDayHasMass(h, ev);
    UmbrellaCombinedZero(h, ev);
    assert WriterOf(1, PyList.Resolve(2, 1)) == 0;
    SlotOneArithmetic();
    SlotFromCombination(h, ev, 1, Vec(0.345, 0.205));
  }

  /** The filtered belief after one umbrella day under the classic model. */
  lemma UmbrellaOneDayFiltering(h: HiddenMarkovModel, ev: seq<string>)
    requires h == Umbrella() && |ev| == 1 && ev[0] == "T"
    ensures Filtering(h, ev) == Ok(Vec(9.0 / 11.0, 2.0 / 11.0))
  {
    UmbrellaForwardOne(h);
    assert Normalize(Vec(0.45, 0.1)) == Vec(9.0 / 11.0, 2.0 / 11.0);
    assert FilterFrom(h, ev, 1, Vec(9.0 / 11.0, 2.0 / 11.0)) == Ok(Vec(9.0 / 11.0, 2.0 / 11.0));
  }

  /** On one umbrella day with the classic model, query k = t = 1 reads the
      slot written last: the belief at time 0, 69/110 (about 0.63), where
      the belief at time 1, the filtered 9/11 (about 0.82), is meant. */
  lemma AsWrittenLastIndexIsTimeZero(h: HiddenMarkovModel, ev: seq<string>)
    requires h == Umbrella() && |ev| == 1 && ev[0] == "T"
    ensures SmoothedAt(h, ev, 1) == Ok(Vec(69.0 / 110.0, 41.0 / 110.0))
    ensures Filtering(h, ev) == Ok(Vec(9.0 / 11.0, 2.0 / 11.0))
    ensures SmoothedCorrected(h, ev, 1) == Filtering(h, ev)
  {
    AsWrittenSlotOne(h, ev);
    UmbrellaOneDayFiltering(h, ev);
    SmoothedCorrectedAtEndIsFiltering(h, ev);
  }
}
