/** Filtering: the normalised belief over the current state given all the
    evidence so far. */
module HmmFiltering {
  import opened Results
  import opened HmmModel
  import opened HmmLikelihood

  /** The recursion of the source: `i` is the next evidence position and `f`
      the belief so far.  Each step normalises the forward message, which
      fails when that message has mass zero. */
  function FilterFrom(h: HiddenMarkovModel, ev: seq<string>, i: nat, f: Vec): (r: Result<Vec>)
    requires i <= |ev|
    ensures i == |ev| ==> r == Ok(f)
    ensures r.Err? ==> r.error == ZeroDivision
    ensures r.Ok? && i < |ev| ==> r.value.Sum() == 1.0
    ensures r.Ok? && i < |ev| && InRange(h) && f.NonNegative() ==> r.value.Probabilities()
    decreases |ev| - i
  {
    if i == |ev| then Ok(f)
    else
      var m := Forward(h, f, ev[i]);
      if m.Sum() == 0.0 then Err(ZeroDivision)
      else FilterFrom(h, ev, i + 1, Normalize(m))
  }

  function Filtering(h: HiddenMarkovModel, ev: seq<string>): (r: Result<Vec>)
    ensures |ev| == 0 ==> r == Ok(h.initial)
    ensures r.Err? ==> r.error == ZeroDivision
    ensures r.Ok? && |ev| > 0 ==> r.value.Sum() == 1.0
    ensures r.Ok? && |ev| > 0 && InRange(h) ==> r.value.Probabilities()
  {
    FilterFrom(h, ev, 0, h.initial)
  }

  /** The same computation as a loop over the evidence. */
  method FilteringLoop(h: HiddenMarkovModel, ev: seq<string>) returns (r: Result<Vec>)
    ensures r == Filtering(h, ev)
  {
    var f := h.initial;
    var i := 0;
    while i < |ev|
      invariant i <= |ev|
      invariant FilterFrom(h, ev, i, f) == Filtering(h, ev)
    {
      var m := Forward(h, f, ev[i]);
      if m.Sum() == 0.0 {
        return Err(ZeroDivision);
      }
      f := Normalize(m);
      i := i + 1;
    }
    return Ok(f);
  }

  /** Normalising at every step or once at the end gives the same belief:
      a successful filter is the normalised forward fold. */
  lemma {:induction false} FilterIsNormalizedFold(h: HiddenMarkovModel, ev: seq<string>, i: nat, f: Vec)
    requires i < |ev|
    ensures FilterFrom(h, ev, i, f).Ok? ==>
      ForwardFold(h, ev, i, f).Sum() != 0.0
      && FilterFrom(h, ev, i, f).value == Normalize(ForwardFold(h, ev, i, f))
    decreases |ev| - i
  {
    var m := Forward(h, f, ev[i]);
    if FilterFrom(h, ev, i, f).Ok? {
      var s := m.Sum();
      var g := Normalize(m);
      NormalizeRescales(m);
      ForwardFoldScales(h, ev, i + 1, s, g);
      assert ForwardFold(h, ev, i, f) == Scale(s, ForwardFold(h, ev, i + 1, g));
      if i + 1 == |ev| {
        NormalizeScaleInvariant(s, g);
        NormalizeFixesDistributions(g);
      } else {
        FilterIsNormalizedFold(h, ev, i + 1, g);
        NormalizeScaleInvariant(s, ForwardFold(h, ev, i + 1, g));
      }
    }
  }

  /** With non-negative tables a filter step fails only when the evidence so
      far is impossible, so filtering succeeds exactly when the forward fold
      keeps some mass. */
  lemma {:induction false} FilterSucceedsIffMass(h: HiddenMarkovModel, ev: seq<string>, i: nat, f: Vec)
    requires InRange(h) && f.NonNegative()
    requires i < |ev|
    ensures FilterFrom(h, ev, i, f).Ok? <==> ForwardFold(h, ev, i, f).Sum() != 0.0
    decreases |ev| - i
  {
    var m := Forward(h, f, ev[i]);
    var s := m.Sum();
    assert ForwardFold(h, ev, i, f) == ForwardFold(h, ev, i + 1, m);
    if s == 0.0 {
      assert FilterFrom(h, ev, i, f).Err?;
      ZeroMassIsZero(m);
      ForwardFoldScales(h, ev, i + 1, 0.0, m);
      assert ForwardFold(h, ev, i + 1, m).Sum() == 0.0;
    } else {
      var g := Normalize(m);
      assert FilterFrom(h, ev, i, f) == FilterFrom(h, ev, i + 1, g);
      assert m == Scale(s, g);
      var x := ForwardFold(h, ev, i + 1, g);
      ForwardFoldScales(h, ev, i + 1, s, g);
      assert ForwardFold(h, ev, i + 1, m) == Scale(s, x);
      ScaledMass(s, x);
      if i + 1 < |ev| {
        FilterSucceedsIffMass(h, ev, i + 1, g);
      } else {
        assert x == g;
      }
    }
  }

  lemma ZeroMassIsZero(m: Vec)
    ensures m.NonNegative() && m.Sum() == 0.0 ==> m == Scale(0.0, m)
  {
  }

  lemma ScaledMass(s: real, x: Vec)
    requires s != 0.0
    ensures Scale(s, x).Sum() != 0.0 <==> x.Sum() != 0.0
  {
    assert Scale(s, x).Sum() == s * x.Sum();
  }

  /** Filtering fails exactly when the evidence has likelihood zero; when it
      succeeds, it is the forward fold divided by its mass, the likelihood. */
  lemma FilteringAgreesWithLikelihood(h: HiddenMarkovModel, ev: seq<string>)
    requires InRange(h) && |ev| > 0
    ensures Likelihood(h, ev) == ForwardFold(h, ev, 0, h.initial).Sum()
    ensures Filtering(h, ev).Ok? <==> Likelihood(h, ev) != 0.0
    ensures Filtering(h, ev).Ok? ==> Filtering(h, ev).value == Normalize(ForwardFold(h, ev, 0, h.initial))
  {
    LikelihoodIsFoldMass(h, ev, 0, h.initial);
    FilterSucceedsIffMass(h, ev, 0, h.initial);
    FilterIsNormalizedFold(h, ev, 0, h.initial);
  }

  /** Two umbrella days in a row leave belief 621/703 (about 0.88) in rain. */
  lemma UmbrellaFiltering()
    ensures Filtering(Umbrella(), ["T", "T"]) == Ok(Vec(621.0 / 703.0, 82.0 / 703.0))
  {
    var h := Umbrella();
    var ev := ["T", "T"];
    var m1 := Forward(h, h.initial, "T");
    assert m1 == Vec(0.45, 0.1);
    var f1 := Normalize(m1);
    assert f1 == Vec(9.0 / 11.0, 2.0 / 11.0);
    var m2 := Forward(h, f1, "T");
    assert m2 == Vec(6.21 / 11.0, 0.82 / 11.0);
    assert Normalize(m2) == Vec(621.0 / 703.0, 82.0 / 703.0);
    assert FilterFrom(h, ev, 2, Normalize(m2)) == Ok(Normalize(m2));
  }
}
