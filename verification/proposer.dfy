/** Weighted proposer selection: exact fairness, periodicity and bounds. */
module Proposer {
  import opened Int64
  import opened Sums
  import opened Wrappers
  import opened Bytes

  datatype Validator = Validator(index: nat, address: seq<byte>, publicKey: seq<byte>,
                                 votingPower: int, proposerPriority: int)

  function Powers(vs: seq<Validator>): (w: seq<int>)
    ensures |w| == |vs|
    ensures forall i :: 0 <= i < |vs| ==> w[i] == vs[i].votingPower
  {
    seq(|vs|, i requires 0 <= i < |vs| => vs[i].votingPower)
  }

  // ----- the selection rule

  /** m is the lowest index holding the maximum of p. */
  predicate IsFirstMax(p: seq<int>, m: nat) {
    && m < |p|
    && (forall j :: 0 <= j < |p| ==> p[j] <= p[m])
    && (forall j :: 0 <= j < m ==> p[j] < p[m])
  }

  function FirstMax(p: seq<int>): (m: nat)
    requires p != []
    ensures m < |p|
  {
    var last := |p| - 1;
    if last == 0 then 0 else
      var m := FirstMax(p[..last]);
      if p[last] > p[m] then last else m
  }

  /** The scan that replaces its candidate only by a strictly larger value
      finds the maximum, and the earliest one among equals. */
  lemma {:induction false} FirstMaxIsFirst(p: seq<int>, m: nat)
    requires p != []
    ensures m == FirstMax(p) <==> IsFirstMax(p, m)
  {
    var last := |p| - 1;
    if last > 0 {
      var init := p[..last];
      FirstMaxIsFirst(init, FirstMax(init));
    }
  }

  // ----- one round and whole runs, over unbounded integers

  function Next(p: seq<int>, w: seq<int>): (r: seq<int>)
    requires |p| == |w|
    ensures |r| == |p|
  {
    seq(|p|, i requires 0 <= i < |p| =>
      if i == FirstMax(p) then p[i] + w[i] - Sum(w) else p[i] + w[i])
  }

  /** The priorities after k rounds from the constructor. */
  function Priorities(w: seq<int>, k: nat): (p: seq<int>)
    ensures |p| == |w|
  {
    if k == 0 then seq(|w|, _ => 0) else Next(Priorities(w, k - 1), w)
  }

  /** The validator that round k names and charges. */
  function Scheduled(w: seq<int>, k: nat): (m: nat)
    requires w != []
    ensures m < |w|
  {
    FirstMax(Priorities(w, k))
  }

  /** How many of the first k rounds charged validator i. */
  function Charged(w: seq<int>, k: nat, i: nat): nat
    requires i < |w|
  {
    if k == 0 then 0 else Charged(w, k - 1, i) + (if Scheduled(w, k - 1) == i then 1 else 0)
  }

  ghost predicate AllPositive(w: seq<int>) {
    forall i :: 0 <= i < |w| ==> w[i] > 0
  }

  ghost predicate NoneNegative(w: seq<int>) {
    forall i :: 0 <= i < |w| ==> w[i] >= 0
  }

  /** No power is negative and the first validator has some. */
  ghost predicate Headed(w: seq<int>) {
    NoneNegative(w) && (w != [] ==> w[0] > 0)
  }

  /** priority_i = k * power_i - charged_i * total. */
  lemma {:induction false} ClosedForm(w: seq<int>, k: nat, i: nat)
    requires i < |w|
    ensures Priorities(w, k)[i] == k * w[i] - Charged(w, k, i) * Sum(w)
  {
    if k > 0 {
      ClosedForm(w, k - 1, i);
      var c := Charged(w, k - 1, i);
      assert k * w[i] == (k - 1) * w[i] + w[i];
      assert (c + 1) * Sum(w) == c * Sum(w) + Sum(w);
    }
  }

  lemma {:induction false} NextSum(p: seq<int>, w: seq<int>)
    requires |p| == |w|
    ensures Sum(Next(p, w)) == Sum(p)
  {
    if p != [] {
      var m, r, T := FirstMax(p), Next(p, w), Sum(w);
      SumUpdate(r, m, r[m] + T);
      SumPointwise(r[m := r[m] + T], p, w);
    }
  }

  /** Every round conserves the total priority. */
  lemma {:induction false} PrioritiesSumToZero(w: seq<int>, k: nat)
    ensures Sum(Priorities(w, k)) == 0
  {
    if k == 0 {
      SumConstant(Priorities(w, 0), 0);
    } else {
      PrioritiesSumToZero(w, k - 1);
      NextSum(Priorities(w, k - 1), w);
    }
  }

  lemma NonNegativeFactor(n: int, x: int)
    requires n > 0 && n * x > -n
    ensures x >= 0
  {
    assert x <= -1 ==> n * x <= n * -1;
  }

  /** The maximum of a zero-sum vector is not negative. */
  lemma {:induction false} MaxNotNegative(p: seq<int>)
    requires p != [] && Sum(p) == 0
    ensures p[FirstMax(p)] >= 0
  {
    var m := FirstMax(p);
    FirstMaxIsFirst(p, m);
    var top := seq(|p|, _ => p[m]);
    SumMonotone(p, top);
    SumConstant(top, p[m]);
    NonNegativeFactor(|p|, p[m]);
  }

  /** No validator is ever as much as one whole proposal ahead of its share. */
  lemma {:induction false} LowerBound(w: seq<int>, k: nat, i: nat)
    requires i < |w| && NoneNegative(w)
    ensures Priorities(w, k)[i] >= w[i] - Sum(w)
  {
    SumNonNegative(w);
    if k > 0 {
      var p := Priorities(w, k - 1);
      LowerBound(w, k - 1, i);
      PrioritiesSumToZero(w, k - 1);
      MaxNotNegative(p);
    }
  }

  /** What one validator can fall behind is bounded by what the others can be ahead. */
  lemma UpperBound(w: seq<int>, k: nat, i: nat)
    requires i < |w| && NoneNegative(w)
    ensures Priorities(w, k)[i] <= (|w| - 2) * Sum(w) + w[i]
  {
    hide Priorities;
    var p, T := Priorities(w, k), Sum(w);
    PrioritiesSumToZero(w, k);
    forall j | 0 <= j < |w| ensures w[j] - T <= p[j] { LowerBound(w, k, j); }
    var floor := seq(|w|, j requires 0 <= j < |w| => w[j] - T);
    var minusT := seq(|w|, _ => -T);
    SumPointwise(floor, w, minusT);
    SumConstant(minusT, -T);
    SumMonotone(floor[i := p[i]], p);
    SumUpdate(floor, i, p[i]);
    assert |w| * -T == -(|w| * T);
    assert (|w| - 2) * T == |w| * T - 2 * T;
  }

  lemma ZeroMaxIsFirst(p: seq<int>)
    requires p != [] && Sum(p) == 0 && p[FirstMax(p)] == 0
    ensures FirstMax(p) == 0
  {
    FirstMaxIsFirst(p, FirstMax(p));
    var q, zeros := seq(|p|, i requires 0 <= i < |p| => -p[i]), seq(|p|, _ => 0);
    SumPointwise(zeros, p, q);
    SumConstant(zeros, 0);
    ZeroSumOfNonNegatives(q);
    assert q[0] == 0;
  }

  /** Behind a validator with power, one without power is never charged. */
  lemma {:induction false} PowerlessNeverCharged(w: seq<int>, k: nat, i: nat)
    requires i < |w| && Headed(w) && w[i] == 0
    ensures Priorities(w, k)[i] == 0 && Charged(w, k, i) == 0
  {
    if k > 0 {
      PowerlessNeverCharged(w, k - 1, i);
      PrioritiesSumToZero(w, k - 1);
      if Scheduled(w, k - 1) == i { ZeroMaxIsFirst(Priorities(w, k - 1)); }
    }
  }

  /** At a round that is a multiple of the total, being less than one whole
      proposal ahead means not being ahead at all. */
  lemma {:induction false} NotAheadAfterFullCycle(w: seq<int>, j: nat)
    requires j < |w| && Headed(w) && Sum(w) > 0
    ensures Priorities(w, Sum(w))[j] == Sum(w) * (w[j] - Charged(w, Sum(w), j))
    ensures Priorities(w, Sum(w))[j] >= 0
  {
    var T := Sum(w);
    var c := Charged(w, T, j);
    if w[j] == 0 {
      PowerlessNeverCharged(w, T, j);
    } else {
      ClosedForm(w, T, j);
      LowerBound(w, T, j);
      WholeProposals(Priorities(w, T)[j], T, w[j], c);
    }
  }

  lemma WholeProposals(p: int, T: int, power: int, c: int)
    requires T > 0 && power > 0 && p == T * power - c * T && p >= power - T
    ensures p == T * (power - c) && p >= 0
  {
    assert T * (power - c) == T * power - c * T;
    NonNegativeFactor(T, power - c);
  }

  /** After exactly Sum(w) rounds every priority is back to zero and every
      validator has proposed exactly as often as it has voting power. */
  lemma {:induction false} ExactFairness(w: seq<int>, i: nat)
    requires i < |w| && Headed(w)
    ensures Sum(w) > 0
    ensures Priorities(w, Sum(w))[i] == 0
    ensures Charged(w, Sum(w), i) == w[i]
  {
    SumNonNegative(w);
    assert w[0] <= Sum(w);
    var T := Sum(w);
    var p := Priorities(w, T);
    forall j | 0 <= j < |w| ensures p[j] >= 0 { NotAheadAfterFullCycle(w, j); }
    PrioritiesSumToZero(w, T);
    ZeroSumOfNonNegatives(p);
    NotAheadAfterFullCycle(w, i);
    ZeroProduct(T, w[i] - Charged(w, T, i));
  }

  lemma ZeroProduct(n: int, x: int)
    requires n > 0 && n * x == 0
    ensures x == 0
  {
    assert x >= 1 ==> n * x >= n * 1;
    assert x <= -1 ==> n * x <= n * -1;
  }

  /** The schedule repeats with period Sum(w). */
  lemma {:induction false} Periodic(w: seq<int>, k: nat)
    requires Headed(w)
    ensures Sum(w) >= 0
    ensures Priorities(w, k + Sum(w)) == Priorities(w, k)
    ensures w != [] ==> Scheduled(w, k + Sum(w)) == Scheduled(w, k)
  {
    SumNonNegative(w);
    var T := Sum(w);
    if k == 0 {
      forall i | 0 <= i < |w| ensures Priorities(w, T)[i] == 0 { ExactFairness(w, i); }
    } else {
      Periodic(w, k - 1);
      assert k + T - 1 == k - 1 + T;
    }
  }

  lemma {:induction false} ChargedStep(w: seq<int>, k: nat, i: nat)
    requires i < |w|
    ensures Charged(w, k + 1, i) - Charged(w, k, i) == if Scheduled(w, k) == i then 1 else 0
  {
  }

  /** In every window of Sum(w) consecutive rounds, wherever it starts,
      validator i proposes exactly w[i] times; in particular nobody starves. */
  lemma {:induction false} FairInEveryWindow(w: seq<int>, k: nat, i: nat)
    requires i < |w| && Headed(w)
    ensures Sum(w) >= 0
    ensures Charged(w, k + Sum(w), i) == Charged(w, k, i) + w[i]
  {
    hide Scheduled;
    SumNonNegative(w);
    var T := Sum(w);
    ExactFairness(w, i);
    var before, after := 0, w[i];
    for r := 0 to k
      invariant before == Charged(w, r, i) && after == Charged(w, r + T, i)
      invariant after == before + w[i]
    {
      Periodic(w, r);
      ChargedStep(w, r, i);
      ChargedStep(w, r + T, i);
      before, after := Charged(w, r + 1, i), Charged(w, r + 1 + T, i);
    }
  }

  lemma {:induction false} ChargedGrows(w: seq<int>, k: nat, i: nat)
    requires i < |w| && k > 0
    ensures Charged(w, k, i) >= Charged(w, 1, i)
  {
    if k > 1 { ChargedGrows(w, k - 1, i); }
  }

  /** With powers that are not negative, a full cycle charges everyone exactly
      as often as they have power if and only if the first validator has some:
      the very first round charges it. */
  lemma FairExactly(w: seq<int>)
    requires NoneNegative(w) && Sum(w) > 0
    ensures w != []
    ensures (forall i :: 0 <= i < |w| ==> Charged(w, Sum(w), i) == w[i]) <==> w[0] > 0
  {
    if w[0] > 0 {
      forall i | 0 <= i < |w| ensures Charged(w, Sum(w), i) == w[i] { ExactFairness(w, i); }
    } else {
      FirstMaxIsFirst(Priorities(w, 0), 0);
      assert Scheduled(w, 0) == 0;
      assert Charged(w, 1, 0) == 1;
      ChargedGrows(w, Sum(w), 0);
    }
  }

  // ----- the same with machine arithmetic

  function MachineTotal(w: seq<int>): int {
    if w == [] then 0 else Wrap(MachineTotal(w[..|w| - 1]) + w[|w| - 1])
  }

  function MachineNext(p: seq<int>, w: seq<int>, total: int): (r: seq<int>)
    requires |p| == |w|
    ensures |r| == |p|
  {
    seq(|p|, i requires 0 <= i < |p| =>
      if i == FirstMax(p) then Wrap(Wrap(p[i] + w[i]) - total) else Wrap(p[i] + w[i]))
  }

  function MachinePriorities(w: seq<int>, k: nat): (p: seq<int>)
    ensures |p| == |w|
  {
    if k == 0 then seq(|w|, _ => 0)
    else MachineNext(MachinePriorities(w, k - 1), w, MachineTotal(w))
  }

  lemma MachineStep(w: seq<int>, k: nat)
    ensures MachinePriorities(w, k + 1) == MachineNext(MachinePriorities(w, k), w, MachineTotal(w))
  {
  }

  /** The whole voting power, once per validator, fits in an int64. */
  ghost predicate Fits(w: seq<int>) {
    AllPositive(w) && |w| * Sum(w) <= MAX_INT64
  }

  lemma {:induction false} MachineTotalExact(w: seq<int>)
    requires AllPositive(w) && Sum(w) <= MAX_INT64
    ensures MachineTotal(w) == Sum(w)
  {
    if w != [] {
      var init := w[..|w| - 1];
      assert w == init + [w[|w| - 1]];
      SumAppend(init, [w[|w| - 1]]);
      SumPositive(init);
      MachineTotalExact(init);
    }
  }

  lemma {:induction false} FitsBounds(w: seq<int>, i: nat)
    requires Fits(w) && i < |w|
    ensures 0 < w[i] <= Sum(w) <= |w| * Sum(w)
  {
    SumPositive(w);
    SumUpdate(w, i, 1);
    SumPositive(w[i := 1]);
    AtLeastOneTimes(|w|, Sum(w));
  }

  lemma AtLeastOneTimes(n: int, x: int)
    requires n >= 1 && x >= 0
    ensures n * x >= x
  {
    assert n * x - x == (n - 1) * x;
  }

  lemma {:induction false} RoundInRange(w: seq<int>, k: nat, i: nat)
    requires Fits(w) && i < |w|
    ensures InRange(Priorities(w, k)[i])
    ensures InRange(Priorities(w, k)[i] + w[i])
  {
    LowerBound(w, k, i);
    UpperBound(w, k, i);
    FitsBounds(w, i);
    assert (|w| - 2) * Sum(w) == |w| * Sum(w) - 2 * Sum(w);
  }

  lemma {:induction false} MachineNextAgrees(p: seq<int>, w: seq<int>)
    requires |p| == |w|
    requires forall i :: 0 <= i < |w| ==> InRange(p[i] + w[i]) && InRange(Next(p, w)[i])
    ensures MachineNext(p, w, Sum(w)) == Next(p, w)
  {
  }

  /** When |w| * Sum(w) fits, no addition or subtraction of any round ever wraps. */
  lemma {:induction false} NoOverflow(w: seq<int>, k: nat)
    requires Fits(w)
    ensures MachinePriorities(w, k) == Priorities(w, k)
  {
    hide FirstMax, Next, MachineNext, Sum;
    if k > 0 && w != [] {
      NoOverflow(w, k - 1);
      FitsBounds(w, 0);
      MachineTotalExact(w);
      var q := Priorities(w, k - 1);
      assert Priorities(w, k) == Next(q, w);
      forall i | 0 <= i < |w| ensures InRange(q[i] + w[i]) && InRange(Next(q, w)[i]) {
        RoundInRange(w, k - 1, i);
        RoundInRange(w, k, i);
      }
      MachineNextAgrees(q, w);
    }
  }

  // ----- the object

  class WeightedProposerSelection {
    const validators: seq<Validator>
    var totalPower: int
    var priorities: array<int>
    var lastProposer: int
    ghost var rounds: nat

    ghost predicate Valid()
      reads this, priorities
    {
      && priorities.Length == |validators|
      && totalPower == MachineTotal(Powers(validators))
      && priorities[..] == MachinePriorities(Powers(validators), rounds)
      && (rounds > 0 && validators != [] ==>
            lastProposer == FirstMax(MachinePriorities(Powers(validators), rounds - 1)))
    }

    constructor (vs: seq<Validator>)
      ensures Valid() && fresh(priorities)
      ensures validators == vs && rounds == 0 && lastProposer == -1
    {
      validators := vs;
      priorities := new int[|vs|](_ => 0);
      lastProposer := -1;
      rounds := 0;
      var total := 0;
      var w := Powers(vs);
      for i := 0 to |vs|
        invariant total == MachineTotal(w[..i])
      {
        assert w[..i + 1][..i] == w[..i];
        total := Wrap(total + vs[i].votingPower);
      }
      assert w[..|vs|] == w;
      totalPower := total;
    }

    method FindMax() returns (m: nat)
      requires Valid() && validators != []
      ensures m == FirstMax(priorities[..])
    {
      m := 0;
      var maxPriority := priorities[0];
      for i := 0 to priorities.Length
        invariant m < priorities.Length && maxPriority == priorities[m]
        invariant m == if i == 0 then 0 else FirstMax(priorities[..i])
      {
        assert priorities[..i + 1][..i] == priorities[..i];
        if priorities[i] > maxPriority {
          maxPriority := priorities[i];
          m := i;
        }
      }
      assert priorities[..priorities.Length] == priorities[..];
    }

    /** The validator that the next IncrementProposerPriority charges. */
    method GetProposer() returns (v: Option<Validator>)
      requires Valid()
      ensures validators == [] <==> v.None?
      ensures validators != [] ==> v == Some(validators[FirstMax(priorities[..])])
      ensures validators != [] && Fits(Powers(validators)) ==>
        v == Some(validators[Scheduled(Powers(validators), rounds)])
    {
      if |validators| == 0 { return None; }
      var m := FindMax();
      v := Some(validators[m]);
      if Fits(Powers(validators)) { NoOverflow(Powers(validators), rounds); }
    }

    method AddPowers()
      requires priorities.Length == |validators|
      modifies priorities
      ensures forall j :: 0 <= j < |validators| ==>
        priorities[j] == Wrap(old(priorities[j]) + validators[j].votingPower)
    {
      for i := 0 to |validators|
        invariant forall j :: 0 <= j < i ==> priorities[j] == Wrap(old(priorities[j]) + validators[j].votingPower)
        invariant forall j :: i <= j < |validators| ==> priorities[j] == old(priorities[j])
      {
        priorities[i] := Wrap(priorities[i] + validators[i].votingPower);
      }
    }

    method IncrementProposerPriority()
      requires Valid()
      modifies this, priorities
      ensures Valid() && priorities == old(priorities) && totalPower == old(totalPower)
      ensures validators != [] ==> rounds == old(rounds) + 1
      ensures validators != [] ==> lastProposer == FirstMax(old(priorities[..]))
      ensures priorities[..] == MachineNext(old(priorities[..]), Powers(validators), totalPower)
    {
      hide FirstMax, MachineTotal, MachinePriorities;
      if |validators| == 0 { return; }
      var m := FindMax();
      MachineStep(Powers(validators), rounds);
      ghost var q := priorities[..];
      AddPowers();
      priorities[m] := Wrap(priorities[m] - totalPower);
      lastProposer := m;
      rounds := rounds + 1;
      assert priorities[..] == MachineNext(q, Powers(validators), totalPower);
    }
  }
}
