/** The probability of an evidence sequence: the mass of the unnormalised
    forward message after all the evidence. */
module HmmLikelihood {
  import opened HmmModel

  /** The unnormalised forward message after the evidence from position `i`
      on has been folded into `f`, left to right. */
  function ForwardFold(h: HiddenMarkovModel, ev: seq<string>, i: nat, f: Vec): (m: Vec)
    requires i <= |ev|
    ensures i == |ev| ==> m == f
    ensures InRange(h) && f.NonNegative() ==> m.NonNegative()
    decreases |ev| - i
  {
    if i == |ev| then f else ForwardFold(h, ev, i + 1, Forward(h, f, ev[i]))
  }

  /** The recursion of the source: `i` is the next evidence position and `f`
      the message so far, never normalised. */
  function LikelihoodFrom(h: HiddenMarkovModel, ev: seq<string>, i: nat, f: Vec): (r: real)
    requires i <= |ev|
    ensures i == |ev| ==> r == f.Sum()
    ensures InRange(h) && f.NonNegative() ==> 0.0 <= r
    ensures WellFormed(h) && InRange(h) && f.NonNegative() ==> r <= f.Sum()
    decreases |ev| - i
  {
    if i == |ev| then f.Sum() else LikelihoodFrom(h, ev, i + 1, Forward(h, f, ev[i]))
  }

  function Likelihood(h: HiddenMarkovModel, ev: seq<string>): (r: real)
    ensures |ev| == 0 ==> r == h.initial.Sum()
    ensures WellFormed(h) && |ev| == 0 ==> r == 1.0
    ensures InRange(h) ==> 0.0 <= r
    ensures WellFormed(h) && InRange(h) ==> r <= 1.0
  {
    LikelihoodFrom(h, ev, 0, h.initial)
  }

  /** The likelihood is the total mass of the forward fold. */
  lemma {:induction false} LikelihoodIsFoldMass(h: HiddenMarkovModel, ev: seq<string>, i: nat, f: Vec)
    requires i <= |ev|
    ensures LikelihoodFrom(h, ev, i, f) == ForwardFold(h, ev, i, f).Sum()
    decreases |ev| - i
  {
    if i < |ev| {
      LikelihoodIsFoldMass(h, ev, i + 1, Forward(h, f, ev[i]));
    }
  }

  /** The fold is linear in its starting message. */
  lemma {:induction false} ForwardFoldScales(h: HiddenMarkovModel, ev: seq<string>, i: nat, c: real, f: Vec)
    requires i <= |ev|
    ensures ForwardFold(h, ev, i, Scale(c, f)) == Scale(c, ForwardFold(h, ev, i, f))
    decreases |ev| - i
  {
    if i < |ev| {
      ForwardScales(h, c, f, ev[i]);
      ForwardFoldScales(h, ev, i + 1, c, Forward(h, f, ev[i]));
    }
  }

  /** Appending one symbol costs one more forward step at the end. */
  lemma {:induction false} ForwardFoldSnoc(h: HiddenMarkovModel, ev: seq<string>, e: string, i: nat, f: Vec)
    requires i <= |ev|
    ensures ForwardFold(h, ev + [e], i, f) == Forward(h, ForwardFold(h, ev, i, f), e)
    decreases |ev| - i
  {
    if i < |ev| {
      assert (ev + [e])[i] == ev[i];
      ForwardFoldSnoc(h, ev, e, i + 1, Forward(h, f, ev[i]));
    } else {
      assert (ev + [e])[i] == e;
    }
  }

  /** The classic umbrella model: prior 0.5, rain persists with 0.7, umbrella
      seen with 0.9 under rain and 0.2 otherwise. */
  function Umbrella(): (h: HiddenMarkovModel)
    ensures WellFormed(h) && InRange(h)
  {
    HiddenMarkovModel(Matrix(Vec(0.7, 0.3), Vec(0.3, 0.7)), Matrix(Vec(0.9, 0.2), Vec(0.1, 0.8)), Vec(0.5, 0.5))
  }

  /** The umbrella model is the one built from its five inputs. */
  lemma UmbrellaIsBuilt()
    ensures Umbrella() == Build(0.5, 0.7, 0.3, 0.9, 0.2)
  {
  }

  /** Two umbrella days in a row have probability 0.3515. */
  lemma UmbrellaLikelihood()
    ensures Likelihood(Umbrella(), ["T", "T"]) == 0.3515
  {
    var h := Umbrella();
    var ev := ["T", "T"];
    var m1 := Forward(h, h.initial, "T");
    assert m1 == Vec(0.45, 0.1);
    var m2 := Forward(h, m1, "T");
    assert m2 == Vec(0.3105, 0.041);
    assert LikelihoodFrom(h, ev, 2, m2) == 0.3515;
  }
}
