/** Forward-backward smoothing, as the source computes it: a forward sweep
    storing every unnormalised forward message, then a backward sweep that
    combines each with the running backward message, normalises, and stores
    the result one slot lower, the last write wrapping to the end of the list. */
module HmmSmoothing {
  import opened Results
  import opened PyList
  import opened HmmModel
  import opened HmmLikelihood
  import opened HmmFiltering

  /** fv[0] is the prior and fv[i] the unnormalised forward message after the
      first i symbols. */
  function ForwardMessages(h: HiddenMarkovModel, ev: seq<string>): (fv: seq<Vec>)
    ensures |fv| == |ev| + 1
    ensures fv[0] == h.initial
    ensures forall i :: 1 <= i <= |ev| ==> fv[i] == Forward(h, fv[i - 1], ev[i - 1])
    ensures InRange(h) ==> forall i :: 0 <= i <= |ev| ==> fv[i].NonNegative()
    decreases |ev|
  {
    if |ev| == 0 then [h.initial]
    else
      var fv := ForwardMessages(h, ev[..|ev| - 1]);
      fv + [Forward(h, fv[|ev| - 1], ev[|ev| - 1])]
  }

  /** The last forward message is the forward fold of the whole evidence. */
  lemma {:induction false} LastForwardMessageIsFold(h: HiddenMarkovModel, ev: seq<string>)
    ensures ForwardMessages(h, ev)[|ev|] == ForwardFold(h, ev, 0, h.initial)
    decreases |ev|
  {
    if |ev| > 0 {
      var front := ev[..|ev| - 1];
      assert ev == front + [ev[|ev| - 1]];
      LastForwardMessageIsFold(h, front);
      ForwardFoldSnoc(h, front, ev[|ev| - 1], 0, h.initial);
    }
  }

  /** The backward message the sweep holds when it reaches position i: all ones
      at the end, one backward step per symbol from there down. */
  function BackwardFrom(h: HiddenMarkovModel, ev: seq<string>, i: nat): (b: Vec)
    requires i <= |ev|
    ensures i == |ev| ==> b == Ones
    ensures InRange(h) ==> b.NonNegative()
    decreases |ev| - i
  {
    if i == |ev| then Ones else Backward(h, BackwardFrom(h, ev, i + 1), ev[i])
  }

  /** The vector the sweep normalises at position i. */
  function Combined(h: HiddenMarkovModel, ev: seq<string>, i: nat): (c: Vec)
    requires i <= |ev|
    ensures InRange(h) ==> c.NonNegative()
  {
    Times(ForwardMessages(h, ev)[i], BackwardFrom(h, ev, i))
  }

  /** At the last position the backward message carries no evidence: the
      combination is the forward fold of all the evidence, and its mass is
      the likelihood. */
  lemma CombinedAtEndIsFold(h: HiddenMarkovModel, ev: seq<string>)
    ensures Combined(h, ev, |ev|) == ForwardFold(h, ev, 0, h.initial)
    ensures Combined(h, ev, |ev|).Sum() == Likelihood(h, ev)
  {
    LastForwardMessageIsFold(h, ev);
    LikelihoodIsFoldMass(h, ev, 0, h.initial);
    var f := ForwardMessages(h, ev)[|ev|];
    assert Times(f, Ones) == f;
  }

  /** The position whose combination ends up in slot `slot` of the result
      list: slot i - 1 is written at position i, and the write at position 0
      goes to index -1, the last slot. */
  function WriterOf(t: nat, slot: nat): (i: nat)
    requires slot <= t
    ensures i <= t
    ensures Resolve(t + 1, i - 1) == slot
  {
    if slot == t then 0 else slot + 1
  }

  /** Some combination the backward sweep normalises has mass zero. */
  predicate HasZeroMass(h: HiddenMarkovModel, ev: seq<string>) {
    exists i :: 0 <= i <= |ev| && Combined(h, ev, i).Sum() == 0.0
  }

  /** What the source's smoothing returns: a zero division if any combination
      has mass zero, an index error when the evidence is empty (the sweep
      reads ev[-1]) or when k is outside the list, and otherwise the stored
      slot k, negative k counting from the end. */
  function SmoothedAt(h: HiddenMarkovModel, ev: seq<string>, k: int): (r: Result<Vec>)
    ensures r.Ok? ==> |ev| > 0 && ValidIndex(|ev| + 1, k)
    ensures r.Ok? ==> r.value.Sum() == 1.0
    ensures r.Ok? && InRange(h) ==> r.value.Probabilities()
  {
    if HasZeroMass(h, ev) then Err(ZeroDivision)
    else if |ev| == 0 || !ValidIndex(|ev| + 1, k) then Err(IndexOutOfRange)
    else Ok(Normalize(Combined(h, ev, WriterOf(|ev|, Resolve(|ev| + 1, k)))))
  }

  /** The source's first loop: fill in fv[1..t] from fv[0], the prior. */
  method ForwardSweep(h: HiddenMarkovModel, ev: seq<string>) returns (fv: seq<Vec>)
    ensures fv == ForwardMessages(h, ev)
  {
    var t := |ev|;
    ghost var expected := ForwardMessages(h, ev);
    fv := Repeat(Vec(0.0, 0.0), t + 1);
    fv := fv[0 := h.initial];
    var i := 1;
    while i <= t
      invariant 1 <= i <= t + 1
      invariant |fv| == t + 1
      invariant forall j :: 0 <= j < i ==> fv[j] == expected[j]
    {
      fv := fv[i := Forward(h, fv[i - 1], ev[i - 1])];
      i := i + 1;
    }
  }

  /** The source's second loop, from position t down to 0: normalise the
      combination at position i into slot i - 1, then step the backward
      message with ev[i - 1].  At position 0 both indices are -1. */
  method BackwardSweep(h: HiddenMarkovModel, ev: seq<string>, fv: seq<Vec>) returns (r: Result<seq<Vec>>)
    requires fv == ForwardMessages(h, ev)
    ensures r.Ok? <==> !HasZeroMass(h, ev) && |ev| > 0
    ensures r.Err? ==> r.error == (if HasZeroMass(h, ev) then ZeroDivision else IndexOutOfRange)
    ensures r.Ok? ==> |r.value| == |ev| + 1
    ensures r.Ok? ==> forall n :: 0 <= n <= |ev| ==>
      r.value[Resolve(|ev| + 1, n - 1)] == Normalize(Combined(h, ev, n))
  {
    var t := |ev|;
    var b := Ones;
    var sv := Repeat(Vec(0.0, 0.0), t + 1);
    var i := t;
    while i >= 0
      invariant -1 <= i <= t
      invariant |sv| == t + 1
      invariant 0 <= i ==> b == BackwardFrom(h, ev, i)
      invariant i < 0 ==> t > 0
      invariant forall n :: i < n <= t ==> Combined(h, ev, n).Sum() != 0.0
      invariant forall n :: i < n <= t ==> sv[Resolve(t + 1, n - 1)] == Normalize(Combined(h, ev, n))
      decreases i + 1
    {
      var temp := Times(fv[i], b);
      assert temp == Combined(h, ev, i);
      if temp.Sum() == 0.0 {
        return Err(ZeroDivision);
      }
      sv := sv[Resolve(t + 1, i - 1) := Normalize(temp)];
      var e := Get(ev, i - 1);
      if e.Err? {
        return Err(IndexOutOfRange);
      }
      b := Backward(h, b, e.value);
      i := i - 1;
    }
    return Ok(sv);
  }

  /** The source's smoothing: both sweeps, then sv[k]. */
  method Smoothing(h: HiddenMarkovModel, ev: seq<string>, k: int) returns (r: Result<Vec>)
    ensures r == SmoothedAt(h, ev, k)
  {
    var t := |ev|;
    var fv := ForwardSweep(h, ev);
    var sv := BackwardSweep(h, ev, fv);
    if sv.Err? {
      return Err(sv.error);
    }
    r := Get(sv.value, k);
    if r.Ok? {
      var n := WriterOf(t, Resolve(t + 1, k));
      assert r.value == Normalize(Combined(h, ev, n));
    }
  }

  /** Index t - 1 holds the last combination, which carries no backward
      evidence, so it is the filtered belief. */
  lemma SmoothingBeforeLastIsFiltering(h: HiddenMarkovModel, ev: seq<string>)
    requires InRange(h) && |ev| > 0
    ensures SmoothedAt(h, ev, |ev| - 1).Ok? ==> SmoothedAt(h, ev, |ev| - 1) == Filtering(h, ev)
  {
    var t := |ev|;
    LastForwardMessageIsFold(h, ev);
    assert Combined(h, ev, t) == ForwardFold(h, ev, 0, h.initial);
    FilteringAgreesWithLikelihood(h, ev);
    assert WriterOf(t, Resolve(t + 1, t - 1)) == t;
  }

  /** Index t, like index -1, holds the combination written last, at
      position 0: the prior weighted by the backward message of all the
      evidence. */
  lemma SmoothingLastIndexWraps(h: HiddenMarkovModel, ev: seq<string>)
    ensures SmoothedAt(h, ev, |ev|) == SmoothedAt(h, ev, -1)
    ensures SmoothedAt(h, ev, |ev|).Ok? ==>
      SmoothedAt(h, ev, |ev|).value == Normalize(Times(h.initial, BackwardFrom(h, ev, 0)))
  {
  }
}
