/** Most likely explanation (Viterbi): a trellis of best scores per state and
    time, a table of the predecessor that achieved each, and the state
    sequence read back through that table from the best final state. */
module HmmViterbi {
  import opened Results
  import opened PyList
  import opened HmmModel
  import opened HmmFiltering

  /** The larger component, as the source's `max` over a two-element list. */
  function MaxOf(v: Vec): (r: real)
    ensures r >= v.v0 && r >= v.v1
    ensures r == v.v0 || r == v.v1
  {
    if v.v0 < v.v1 then v.v1 else v.v0
  }

  /** The source's `int(v[0] < v[1])`: the index of a largest component, 0 on a tie. */
  function ArgMax(v: Vec): (s: State)
    ensures v.At(s) == MaxOf(v)
    ensures v.v0 == v.v1 ==> s == 0
  {
    if v.v0 < v.v1 then 1 else 0
  }

  /** Score of reaching state j from each predecessor: `temp1` for j = 0,
      `temp2` for j = 1.  With probability tables the candidates never
      carry more than the previous row. */
  function Candidates(h: HiddenMarkovModel, m: Vec, j: State): (c: Vec)
    ensures InRange(h) && m.NonNegative() ==> c.NonNegative() && c.Sum() <= m.Sum()
  {
    var t := h.transition.Row(j);
    if InRange(h) && m.NonNegative() then
      WeightedBelow(m, t);
      Times(m, t)
    else
      Times(m, t)
  }

  /** Weighting by probabilities keeps every component between zero and its
      old value, so the total cannot grow. */
  lemma WeightedBelow(m: Vec, t: Vec)
    requires m.NonNegative() && t.Probabilities()
    ensures Times(m, t).NonNegative() && Times(m, t).Sum() <= m.Sum()
  {
    MulNonNegative(m.v0, t.v0);
    MulNonNegative(m.v1, t.v1);
    MulAtMostOne(m.v0, t.v0);
    MulAtMostOne(m.v1, t.v1);
    var a, b := m.v0 * t.v0, m.v1 * t.v1;
    assert 0.0 <= a <= m.v0 && 0.0 <= b <= m.v1;
    assert Times(m, t) == Vec(a, b);
  }

  /** With complementary transition columns the candidates of the two target
      states share out the previous row exactly. */
  lemma CandidatesSplitRow(h: HiddenMarkovModel, m: Vec)
    ensures WellFormed(h) ==> Candidates(h, m, 0).Sum() + Candidates(h, m, 1).Sum() == m.Sum()
  {
    if WellFormed(h) {
      SplitByComplement(m.v0, h.transition.row0.v0, h.transition.row1.v0);
      SplitByComplement(m.v1, h.transition.row0.v1, h.transition.row1.v1);
    }
  }

  /** A value between zero and a bound, scaled by a probability, stays
      between zero and that bound. */
  lemma ScaledBelow(x: real, p: real, bound: real)
    requires 0.0 <= x <= bound && 0.0 <= p <= 1.0
    ensures 0.0 <= x * p <= bound
  {
    MulNonNegative(x, p);
    MulAtMostOne(x, p);
  }

  /** Scaling the best of each candidate pair by a probability gives a
      non-negative row carrying at most the candidates' combined total. */
  lemma BestRowBelow(c0: Vec, c1: Vec, s: Vec)
    ensures c0.NonNegative() && c1.NonNegative() && s.Probabilities() ==>
      var r := Vec(MaxOf(c0) * s.v0, MaxOf(c1) * s.v1);
      r.NonNegative() && r.Sum() <= c0.Sum() + c1.Sum()
  {
    if c0.NonNegative() && c1.NonNegative() && s.Probabilities() {
      var b0, b1 := MaxOf(c0), MaxOf(c1);
      assert 0.0 <= b0 <= c0.Sum() && 0.0 <= b1 <= c1.Sum();
      ScaledBelow(b0, s.v0, c0.Sum());
      ScaledBelow(b1, s.v1, c1.Sum());
    }
  }

  /** One trellis row from the previous one and the sensor vector of the
      next symbol.  In a well-formed model with probability tables a step
      never adds mass: each best candidate is at most its column's share of
      the previous row, and the two shares add up to that row. */
  function ViterbiStep(h: HiddenMarkovModel, m: Vec, s: Vec): (r: Vec)
    ensures InRange(h) && m.NonNegative() && s.Probabilities() ==> r.NonNegative()
    ensures WellFormed(h) && InRange(h) && m.NonNegative() && s.Probabilities() ==> r.Sum() <= m.Sum()
  {
    var c0 := Candidates(h, m, 0);
    var c1 := Candidates(h, m, 1);
    CandidatesSplitRow(h, m);
    BestRowBelow(c0, c1, s);
    Vec(MaxOf(c0) * s.v0, MaxOf(c1) * s.v1)
  }

  /** The predecessor recorded for each target state. */
  datatype Pointers = Pointers(from0: State, from1: State) {
    function At(j: State): State {
      if j == 0 then from0 else from1
    }
  }

  /** For each target state, a predecessor with the best candidate score,
      predecessor 0 when both are equal. */
  function BacktrackRow(h: HiddenMarkovModel, m: Vec): (r: Pointers)
    ensures Candidates(h, m, 0).At(r.from0) == MaxOf(Candidates(h, m, 0))
    ensures Candidates(h, m, 1).At(r.from1) == MaxOf(Candidates(h, m, 1))
    ensures Candidates(h, m, 0).v0 == Candidates(h, m, 0).v1 ==> r.from0 == 0
    ensures Candidates(h, m, 1).v0 == Candidates(h, m, 1).v1 ==> r.from1 == 0
  {
    Pointers(ArgMax(Candidates(h, m, 0)), ArgMax(Candidates(h, m, 1)))
  }

  /** The sensor vector of every symbol, in order. */
  function Sensors(h: HiddenMarkovModel, ev: seq<string>): (ss: seq<Vec>)
    ensures |ss| == |ev|
    ensures forall i :: 0 <= i < |ev| ==> ss[i] == Sensor(h, ev[i])
    ensures InRange(h) ==> NonNegativeRows(ss)
  {
    if |ev| == 0 then [] else Sensors(h, ev[..|ev| - 1]) + [Sensor(h, ev[|ev| - 1])]
  }

  predicate NonNegativeRows(ss: seq<Vec>) {
    forall i :: 0 <= i < |ss| ==> ss[i].NonNegative()
  }

  /** The first row can be formed: there is a first symbol and the first
      forward message has mass to normalise. */
  predicate Startable(h: HiddenMarkovModel, ev: seq<string>) {
    |ev| > 0 && Forward(h, h.initial, ev[0]).Sum() != 0.0
  }

  /** The first trellis row: the normalised first forward message. */
  function FirstRow(h: HiddenMarkovModel, ev: seq<string>): (f: Vec)
    requires Startable(h, ev)
    ensures f.Sum() == 1.0
    ensures InRange(h) ==> f.Probabilities()
  {
    Normalize(Forward(h, h.initial, ev[0]))
  }

  /** The first n rows of the trellis: row 0 is `first`, then one Viterbi
      step per sensor vector. */
  function Trellis(h: HiddenMarkovModel, ss: seq<Vec>, first: Vec, n: nat): (m: seq<Vec>)
    requires 1 <= n <= |ss|
    ensures |m| == n
    ensures m[0] == first
    decreases n
  {
    if n == 1 then [first]
    else
      var m := Trellis(h, ss, first, n - 1);
      m + [ViterbiStep(h, m[n - 2], ss[n - 1])]
  }

  /** Row i holds the predecessors chosen when forming row i + 1: one table
      row for every trellis row but the last. */
  function Backtrack(h: HiddenMarkovModel, rows: seq<Vec>): (bt: seq<Pointers>)
    requires 1 <= |rows|
    ensures |bt| == |rows| - 1
    ensures forall i :: 0 <= i < |bt| ==> bt[i] == BacktrackRow(h, rows[i])
  {
    PointerRows(h, rows[..|rows| - 1])
  }

  function PointerRows(h: HiddenMarkovModel, rows: seq<Vec>): (bt: seq<Pointers>)
    ensures |bt| == |rows|
    ensures forall i :: 0 <= i < |rows| ==> bt[i] == BacktrackRow(h, rows[i])
  {
    if |rows| == 0 then [] else PointerRows(h, rows[..|rows| - 1]) + [BacktrackRow(h, rows[|rows| - 1])]
  }

  /** Every state but the last is the predecessor the table records for the
      state after it. */
  predicate Follows(bt: seq<Pointers>, states: seq<State>)
    requires |states| == |bt| + 1
  {
    forall i :: 0 < i < |states| ==> states[i - 1] == bt[i - 1].At(states[i])
  }

  /** The state sequence read back from `last` through the table. */
  function Reconstruct(bt: seq<Pointers>, last: State): (states: seq<State>)
    ensures |states| == |bt| + 1
    ensures states[|bt|] == last
    ensures Follows(bt, states)
    decreases |bt|
  {
    if |bt| == 0 then [last]
    else Reconstruct(bt[..|bt| - 1], bt[|bt| - 1].At(last)) + [last]
  }

  /** true for state 0 ("rain"), false for state 1. */
  function AsPath(states: seq<State>): (path: seq<bool>)
    ensures |path| == |states|
    ensures forall i :: 0 <= i < |states| ==> (path[i] <==> states[i] == 0)
  {
    if |states| == 0 then [] else AsPath(states[..|states| - 1]) + [states[|states| - 1] == 0]
  }

  datatype Explanation = Explanation(path: seq<bool>, trellis: seq<Vec>)

  /** The decoded state sequence: read back from the best final state. */
  function DecodedStates(h: HiddenMarkovModel, rows: seq<Vec>): (states: seq<State>)
    requires 1 <= |rows|
    ensures |states| == |rows|
    ensures states[|rows| - 1] == ArgMax(rows[|rows| - 1])
    ensures Follows(Backtrack(h, rows), states)
  {
    Reconstruct(Backtrack(h, rows), ArgMax(rows[|rows| - 1]))
  }

  /** The full trellis of the evidence. */
  function TrellisOf(h: HiddenMarkovModel, ev: seq<string>): (rows: seq<Vec>)
    requires Startable(h, ev)
    ensures |rows| == |ev|
    ensures rows[0] == FirstRow(h, ev)
  {
    Trellis(h, Sensors(h, ev), FirstRow(h, ev), |ev|)
  }

  /** What the source's `viterbi` returns, before its rounding for display:
      an index error on empty evidence, a zero division when the first
      forward message has no mass. */
  function Viterbi(h: HiddenMarkovModel, ev: seq<string>): (r: Result<Explanation>)
    ensures r.Ok? <==> Startable(h, ev)
    ensures |ev| == 0 ==> r == Err(IndexOutOfRange)
    ensures r.Err? && |ev| > 0 ==> r.error == ZeroDivision
    ensures r.Ok? ==> |r.value.path| == |ev| && |r.value.trellis| == |ev|
    ensures r.Ok? ==> r.value.trellis[0].Sum() == 1.0
    ensures r.Ok? ==>
      (r.value.path[|ev| - 1] <==> r.value.trellis[|ev| - 1].v0 >= r.value.trellis[|ev| - 1].v1)
    ensures r.Ok? ==> forall i :: 1 <= i < |ev| ==>
      (r.value.path[i - 1] <==>
       Backtrack(h, r.value.trellis)[i - 1].At(if r.value.path[i] then 0 else 1) == 0)
    ensures r.Ok? && WellFormed(h) && InRange(h) ==>
      forall i :: 0 <= i < |ev| ==> 0.0 <= r.value.trellis[i].Sum() <= 1.0
  {
    if |ev| == 0 then Err(IndexOutOfRange)
    else if Forward(h, h.initial, ev[0]).Sum() == 0.0 then Err(ZeroDivision)
    else
      TrellisOfMass(h, ev);
      var rows := TrellisOf(h, ev);
      Ok(Explanation(AsPath(DecodedStates(h, rows)), rows))
  }

  /** The source's first loop: the trellis and the table, row by row. */
  method BuildTrellis(h: HiddenMarkovModel, ev: seq<string>) returns (m: seq<Vec>, backtrack: seq<Pointers>)
    requires Startable(h, ev)
    ensures m == TrellisOf(h, ev)
    ensures backtrack == Backtrack(h, m)
  {
    ghost var ss := Sensors(h, ev);
    ghost var first := FirstRow(h, ev);
    m := [Normalize(Forward(h, h.initial, ev[0]))];
    backtrack := [];
    var i := 1;
    while i < |ev|
      invariant 1 <= i <= |ev|
      invariant m == Trellis(h, ss, first, i)
      invariant |backtrack| == i - 1
      invariant forall j :: 0 <= j < i - 1 ==> backtrack[j] == BacktrackRow(h, m[j])
    {
      var sensor := Sensor(h, ev[i]);
      assert sensor == ss[i];
      m := m + [ViterbiStep(h, m[i - 1], sensor)];
      backtrack := backtrack + [BacktrackRow(h, m[i - 1])];
      i := i + 1;
    }
  }

  /** The source's second loop: walk back from `last` through the table,
      writing each state as a truth value. */
  method WalkBack(backtrack: seq<Pointers>, last: State) returns (path: seq<bool>)
    ensures path == AsPath(Reconstruct(backtrack, last))
  {
    var t := |backtrack| + 1;
    ghost var states := Reconstruct(backtrack, last);
    path := Repeat(true, t);
    var iMax := last;
    var k := t - 1;
    while k >= 0
      invariant -1 <= k < t
      invariant |path| == t
      invariant 0 <= k ==> iMax == states[k]
      invariant forall j :: k < j < t ==> (path[j] <==> states[j] == 0)
      decreases k + 1
    {
      path := path[k := iMax == 0];
      if k > 0 {
        iMax := backtrack[k - 1].At(iMax);
      }
      k := k - 1;
    }
  }

  /** The whole of the source's `viterbi`. */
  method ViterbiLoop(h: HiddenMarkovModel, ev: seq<string>) returns (r: Result<Explanation>)
    ensures r == Viterbi(h, ev)
  {
    if |ev| == 0 {
      return Err(IndexOutOfRange);
    }
    var f := Forward(h, h.initial, ev[0]);
    if f.Sum() == 0.0 {
      return Err(ZeroDivision);
    }
    var m, backtrack := BuildTrellis(h, ev);
    var path := WalkBack(backtrack, ArgMax(m[|ev| - 1]));
    return Ok(Explanation(path, m));
  }

  /** The weight of moving from state p to state j and then seeing the
      symbol with sensor vector s. */
  function StepWeight(h: HiddenMarkovModel, s: Vec, p: State, j: State): real {
    h.transition.At(j, p) * s.At(j)
  }

  /** The score of states[0..m]: `start` at the first state, then one step
      weight per later state. */
  function ScoreUpTo(h: HiddenMarkovModel, ss: seq<Vec>, start: Vec, states: seq<State>, m: nat): real
    requires m < |states| && m < |ss|
    decreases m
  {
    if m == 0 then start.At(states[0])
    else ScoreUpTo(h, ss, start, states, m - 1) * StepWeight(h, ss[m], states[m - 1], states[m])
  }

  /** The score of a state sequence for the whole evidence, from the first
      trellis row: the joint probability of the states and of every symbol
      after the first, given the first. */
  function PathScore(h: HiddenMarkovModel, ev: seq<string>, states: seq<State>): real
    requires Startable(h, ev) && |states| == |ev|
  {
    ScoreUpTo(h, Sensors(h, ev), FirstRow(h, ev), states, |ev| - 1)
  }

  /** The decoded state sequence of the evidence. */
  function ViterbiStates(h: HiddenMarkovModel, ev: seq<string>): (states: seq<State>)
    requires Startable(h, ev)
    ensures |states| == |ev|
  {
    DecodedStates(h, TrellisOf(h, ev))
  }

  /** Arithmetic behind one bound step: a <= b and b * t <= best, with t and
      s non-negative, give a * (t * s) <= best * s. */
  lemma ProductBound(a: real, b: real, t: real, s: real, best: real, w: real, v: real)
    requires a <= b && b * t <= best && 0.0 <= t && 0.0 <= s
    requires w == t * s && v == best * s
    ensures a * w <= v
  {
    assert a * t <= b * t;
    assert a * t * s <= best * s;
  }

  lemma ProductShift(b: real, t: real, s: real, best: real, w: real, v: real)
    requires b * t == best && w == t * s && v == best * s
    ensures b * w == v
  {
  }

  /** Entry j of a trellis step: the best candidate times the emission. */
  lemma ViterbiStepAt(h: HiddenMarkovModel, m: Vec, s: Vec, j: State)
    ensures ViterbiStep(h, m, s).At(j) == MaxOf(Candidates(h, m, j)) * s.At(j)
  {
    if j == 0 {
      assert ViterbiStep(h, m, s).At(j) == ViterbiStep(h, m, s).v0;
    } else {
      assert ViterbiStep(h, m, s).At(j) == ViterbiStep(h, m, s).v1;
    }
  }

  /** Candidate p for state j: the score at p times the move from p to j. */
  lemma CandidateAt(h: HiddenMarkovModel, m: Vec, j: State, p: State)
    ensures Candidates(h, m, j).At(p) == m.At(p) * h.transition.At(j, p)
  {
    if p == 0 {
      assert Candidates(h, m, j).At(p) == Candidates(h, m, j).v0;
    } else {
      assert Candidates(h, m, j).At(p) == Candidates(h, m, j).v1;
    }
  }

  /** One trellis step bounds every way of extending a path: a score at most
      m.At(p) at predecessor p, extended to state j, stays within the next
      row's entry for j. */
  lemma StepBoundsExtension(h: HiddenMarkovModel, m: Vec, s: Vec, p: State, j: State, a: real)
    requires 0.0 <= h.transition.At(j, p) && 0.0 <= s.At(j) && a <= m.At(p)
    ensures a * StepWeight(h, s, p, j) <= ViterbiStep(h, m, s).At(j)
  {
    CandidateAt(h, m, j, p);
    ViterbiStepAt(h, m, s, j);
    ProductBound(a, m.At(p), h.transition.At(j, p), s.At(j), MaxOf(Candidates(h, m, j)),
      StepWeight(h, s, p, j), ViterbiStep(h, m, s).At(j));
  }

  /** The predecessor p the table records for j achieves the next row's entry. */
  lemma StepAttainsEntry(h: HiddenMarkovModel, m: Vec, s: Vec, j: State, p: State)
    requires p == BacktrackRow(h, m).At(j)
    ensures m.At(p) * StepWeight(h, s, p, j) == ViterbiStep(h, m, s).At(j)
  {
    if j == 0 {
      AttainsAt(h, m, s, 0, p);
    } else {
      AttainsAt(h, m, s, 1, p);
    }
  }

  lemma AttainsAt(h: HiddenMarkovModel, m: Vec, s: Vec, j: State, p: State)
    requires p == ArgMax(Candidates(h, m, j))
    ensures m.At(p) * StepWeight(h, s, p, j) == ViterbiStep(h, m, s).At(j)
  {
    CandidateAt(h, m, j, p);
    ViterbiStepAt(h, m, s, j);
    ProductShift(m.At(p), h.transition.At(j, p), s.At(j), MaxOf(Candidates(h, m, j)),
      StepWeight(h, s, p, j), ViterbiStep(h, m, s).At(j));
  }

  /** Forming more rows leaves the earlier ones as they were. */
  lemma {:induction false} TrellisExtends(h: HiddenMarkovModel, ss: seq<Vec>, first: Vec, n: nat, n2: nat, i: nat)
    requires 1 <= n <= n2 <= |ss| && i < n
    ensures Trellis(h, ss, first, n2)[i] == Trellis(h, ss, first, n)[i]
    decreases n2
  {
    if n < n2 {
      TrellisExtends(h, ss, first, n, n2 - 1, i);
    }
  }

  /** Row i of a trellis is one Viterbi step from row i - 1. */
  lemma TrellisRowStep(h: HiddenMarkovModel, ss: seq<Vec>, first: Vec, n: nat, i: nat)
    requires 1 <= i < n <= |ss|
    ensures Trellis(h, ss, first, n)[i] == ViterbiStep(h, Trellis(h, ss, first, n)[i - 1], ss[i])
  {
    TrellisExtends(h, ss, first, i + 1, n, i);
    TrellisExtends(h, ss, first, i + 1, n, i - 1);
  }

  /** Every later row of the trellis is one Viterbi step from the row before,
      taken with the sensor vector of its own symbol. */
  lemma TrellisRecurrence(h: HiddenMarkovModel, ev: seq<string>)
    requires Startable(h, ev)
    ensures forall i :: 1 <= i < |ev| ==>
      TrellisOf(h, ev)[i] == ViterbiStep(h, TrellisOf(h, ev)[i - 1], Sensor(h, ev[i]))
  {
    forall i | 1 <= i < |ev|
      ensures TrellisOf(h, ev)[i] == ViterbiStep(h, TrellisOf(h, ev)[i - 1], Sensor(h, ev[i]))
    {
      TrellisRowStep(h, Sensors(h, ev), FirstRow(h, ev), |ev|, i);
    }
  }

  /** Every vector of the sequence holds probabilities. */
  predicate ProbabilityRows(ss: seq<Vec>) {
    forall i :: 0 <= i < |ss| ==> ss[i].Probabilities()
  }

  /** With probability tables and a non-negative first row, no trellis row
      is negative and none carries more mass than the first. */
  lemma {:induction false} TrellisMassBelowFirst(h: HiddenMarkovModel, ss: seq<Vec>, first: Vec, n: nat)
    requires 1 <= n <= |ss|
    ensures WellFormed(h) && InRange(h) && first.NonNegative() && ProbabilityRows(ss) ==>
      forall i :: 0 <= i < n ==>
        Trellis(h, ss, first, n)[i].NonNegative() && Trellis(h, ss, first, n)[i].Sum() <= first.Sum()
    decreases n
  {
    if n > 1 && WellFormed(h) && InRange(h) && first.NonNegative() && ProbabilityRows(ss) {
      TrellisMassBelowFirst(h, ss, first, n - 1);
      var m := Trellis(h, ss, first, n - 1);
      var next := ViterbiStep(h, m[n - 2], ss[n - 1]);
      assert Trellis(h, ss, first, n) == m + [next];
      assert next.NonNegative() && next.Sum() <= m[n - 2].Sum();
    }
  }

  /** Every row of the trellis of a well-formed model with probability
      tables holds a mass between zero and one. */
  lemma TrellisOfMass(h: HiddenMarkovModel, ev: seq<string>)
    requires Startable(h, ev)
    ensures WellFormed(h) && InRange(h) ==>
      forall i :: 0 <= i < |ev| ==> 0.0 <= TrellisOf(h, ev)[i].Sum() <= 1.0
  {
    if WellFormed(h) && InRange(h) {
      var ss := Sensors(h, ev);
      forall i | 0 <= i < |ss|
        ensures ss[i].Probabilities()
      {
        assert ss[i] == Sensor(h, ev[i]);
      }
      TrellisMassBelowFirst(h, ss, FirstRow(h, ev), |ev|);
    }
  }

  /** Transition entries of an in-range model are non-negative. */
  lemma TransitionNonNegative(h: HiddenMarkovModel, p: State, j: State)
    requires InRange(h)
    ensures 0.0 <= h.transition.At(j, p)
  {
  }

  /** So is every step weight with a non-negative sensor vector. */
  lemma StepWeightNonNegative(h: HiddenMarkovModel, s: Vec, p: State, j: State)
    requires InRange(h) && s.NonNegative()
    ensures 0.0 <= StepWeight(h, s, p, j)
  {
    TransitionNonNegative(h, p, j);
    MulNonNegative(h.transition.At(j, p), s.At(j));
  }

  /** a <= b scaled by a non-negative w stays below anything b * w is below. */
  lemma ScaleBelow(a: real, b: real, w: real, c: real)
    requires a <= b && 0.0 <= w && b * w <= c
    ensures a * w <= c
  {
    assert a * w <= b * w;
  }

  /** Row i bounds the extension of its entry p in row i - 1 to state j. */
  predicate BoundsStep(h: HiddenMarkovModel, ss: seq<Vec>, rows: seq<Vec>, i: nat, p: State, j: State)
    requires 1 <= i < |rows| <= |ss|
  {
    rows[i - 1].At(p) * StepWeight(h, ss[i], p, j) <= rows[i].At(j)
  }

  /** Each row bounds every one-step extension of the row before it. */
  predicate StepBounded(h: HiddenMarkovModel, ss: seq<Vec>, rows: seq<Vec>)
    requires |rows| <= |ss|
  {
    forall i: nat, p: State, j: State :: 1 <= i < |rows| ==> BoundsStep(h, ss, rows, i, p, j)
  }

  /** Row i's entry for j is reached from the predecessor the table records. */
  predicate AttainsStep(h: HiddenMarkovModel, ss: seq<Vec>, rows: seq<Vec>, bt: seq<Pointers>, i: nat, j: State)
    requires 1 <= i < |rows| <= |ss| && |bt| + 1 == |rows|
  {
    rows[i - 1].At(bt[i - 1].At(j)) * StepWeight(h, ss[i], bt[i - 1].At(j), j) == rows[i].At(j)
  }

  /** Each row's entries are reached from the predecessors the table records. */
  predicate StepAttained(h: HiddenMarkovModel, ss: seq<Vec>, rows: seq<Vec>, bt: seq<Pointers>)
    requires |rows| <= |ss| && |bt| + 1 == |rows|
  {
    forall i: nat, j: State :: 1 <= i < |rows| ==> AttainsStep(h, ss, rows, bt, i, j)
  }

  /** A row one Viterbi step from the row before bounds that row's extensions. */
  lemma RowsEntryBound(h: HiddenMarkovModel, ss: seq<Vec>, rows: seq<Vec>, i: nat, p: State, j: State)
    requires InRange(h) && 1 <= i < |rows| <= |ss| && ss[i].NonNegative()
    requires rows[i] == ViterbiStep(h, rows[i - 1], ss[i])
    ensures BoundsStep(h, ss, rows, i, p, j)
  {
    TransitionNonNegative(h, p, j);
    StepBoundsExtension(h, rows[i - 1], ss[i], p, j, rows[i - 1].At(p));
  }

  /** A row one Viterbi step from the row before is reached through the
      predecessors recorded from that row. */
  lemma RowsEntryAttained(h: HiddenMarkovModel, ss: seq<Vec>, rows: seq<Vec>, bt: seq<Pointers>, i: nat, j: State)
    requires 1 <= i < |rows| <= |ss| && |bt| + 1 == |rows|
    requires rows[i] == ViterbiStep(h, rows[i - 1], ss[i])
    requires bt[i - 1] == BacktrackRow(h, rows[i - 1])
    ensures AttainsStep(h, ss, rows, bt, i, j)
  {
    StepAttainsEntry(h, rows[i - 1], ss[i], j, bt[i - 1].At(j));
  }

  /** The trellis bounds every step. */
  lemma TrellisStepBounded(h: HiddenMarkovModel, ss: seq<Vec>, first: Vec)
    requires InRange(h) && 1 <= |ss| && NonNegativeRows(ss)
    ensures StepBounded(h, ss, Trellis(h, ss, first, |ss|))
  {
    forall i: nat, p: State, j: State | 1 <= i < |ss|
      ensures BoundsStep(h, ss, Trellis(h, ss, first, |ss|), i, p, j)
    {
      TrellisRowStep(h, ss, first, |ss|, i);
      RowsEntryBound(h, ss, Trellis(h, ss, first, |ss|), i, p, j);
    }
  }

  /** The trellis and its table attain every step. */
  lemma TrellisStepAttained(h: HiddenMarkovModel, ss: seq<Vec>, first: Vec)
    requires 1 <= |ss|
    ensures StepAttained(h, ss, Trellis(h, ss, first, |ss|), Backtrack(h, Trellis(h, ss, first, |ss|)))
  {
    var rows := Trellis(h, ss, first, |ss|);
    forall i: nat, j: State | 1 <= i < |ss|
      ensures AttainsStep(h, ss, rows, Backtrack(h, rows), i, j)
    {
      TrellisRowStep(h, ss, first, |ss|, i);
      RowsEntryAttained(h, ss, rows, Backtrack(h, rows), i, j);
    }
  }

  /** Rows that bound every step bound every state sequence: no sequence
      scores above the entry of its state at the same position. */
  lemma {:induction false} BoundedRowsBoundEveryPath(h: HiddenMarkovModel, ss: seq<Vec>, rows: seq<Vec>,
                                                     states: seq<State>, m: nat)
    requires m < |states| && m < |rows| <= |ss|
    requires InRange(h) && NonNegativeRows(ss) && StepBounded(h, ss, rows)
    ensures ScoreUpTo(h, ss, rows[0], states, m) <= rows[m].At(states[m])
    decreases m
  {
    if m > 0 {
      BoundedRowsBoundEveryPath(h, ss, rows, states, m - 1);
      assert BoundsStep(h, ss, rows, m, states[m - 1], states[m]);
      StepWeightNonNegative(h, ss[m], states[m - 1], states[m]);
      ScaleBelow(ScoreUpTo(h, ss, rows[0], states, m - 1), rows[m - 1].At(states[m - 1]),
        StepWeight(h, ss[m], states[m - 1], states[m]), rows[m].At(states[m]));
    }
  }

  /** Rows attained through a table: a sequence that follows the table scores
      exactly the entry of its state at each position. */
  lemma {:induction false} AttainedRowsAttainFollowers(h: HiddenMarkovModel, ss: seq<Vec>, rows: seq<Vec>,
                                                       bt: seq<Pointers>, states: seq<State>, m: nat)
    requires |rows| <= |ss| && |bt| + 1 == |rows| && |states| == |rows|
    requires StepAttained(h, ss, rows, bt) && Follows(bt, states)
    requires m < |rows|
    ensures ScoreUpTo(h, ss, rows[0], states, m) == rows[m].At(states[m])
    decreases m
  {
    if m > 0 {
      AttainedRowsAttainFollowers(h, ss, rows, bt, states, m - 1);
      assert states[m - 1] == bt[m - 1].At(states[m]);
      assert AttainsStep(h, ss, rows, bt, m, states[m]);
    }
  }

  /** Whatever the first row, the decoded sequence scores the larger final
      trellis entry, and no state sequence of the same length scores more. */
  lemma DecodedPathIsMostLikely(h: HiddenMarkovModel, ss: seq<Vec>, first: Vec, other: seq<State>)
    requires InRange(h) && NonNegativeRows(ss) && 1 <= |ss| && |other| == |ss|
    ensures ScoreUpTo(h, ss, first, DecodedStates(h, Trellis(h, ss, first, |ss|)), |ss| - 1)
      == MaxOf(Trellis(h, ss, first, |ss|)[|ss| - 1])
    ensures ScoreUpTo(h, ss, first, other, |ss| - 1)
      <= ScoreUpTo(h, ss, first, DecodedStates(h, Trellis(h, ss, first, |ss|)), |ss| - 1)
  {
    var rows := Trellis(h, ss, first, |ss|);
    var decoded := DecodedStates(h, rows);
    TrellisStepAttained(h, ss, first);
    AttainedRowsAttainFollowers(h, ss, rows, Backtrack(h, rows), decoded, |ss| - 1);
    TrellisStepBounded(h, ss, first);
    BoundedRowsBoundEveryPath(h, ss, rows, other, |ss| - 1);
  }

  /** The path the source returns is the decoded sequence, it scores the
      larger final trellis entry, and no state sequence explains the
      evidence better. */
  lemma ViterbiPathIsMostLikely(h: HiddenMarkovModel, ev: seq<string>, other: seq<State>)
    requires InRange(h) && |other| == |ev|
    ensures Viterbi(h, ev).Ok? ==>
      Viterbi(h, ev).value.path == AsPath(ViterbiStates(h, ev))
      && PathScore(h, ev, ViterbiStates(h, ev)) == MaxOf(TrellisOf(h, ev)[|ev| - 1])
      && PathScore(h, ev, other) <= PathScore(h, ev, ViterbiStates(h, ev))
  {
    if Viterbi(h, ev).Ok? {
      DecodedPathIsMostLikely(h, Sensors(h, ev), FirstRow(h, ev), other);
    }
  }

  /** With one symbol the only trellis row is the filtered belief. */
  lemma ViterbiFirstRowIsFiltering(h: HiddenMarkovModel, e: string)
    ensures Viterbi(h, [e]).Ok? <==> Filtering(h, [e]).Ok?
    ensures Viterbi(h, [e]).Ok? ==> Viterbi(h, [e]).value.trellis == [Filtering(h, [e]).value]
  {
    assert FilterFrom(h, [e], 0, h.initial).Ok? ==>
      FilterFrom(h, [e], 0, h.initial) == Ok(Normalize(Forward(h, h.initial, e)));
  }
}
