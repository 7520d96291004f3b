/** Validator sets: quorum, commit verification and quorum intersection. */
module Quorum {
  import opened Int64
  import opened Sums
  import opened Wrappers
  import opened Bytes
  import opened Proposer

  const PUBLIC_KEY_SIZE := 32
  const SIGNATURE_SIZE := 64

  datatype CommitSig = CommitSig(validatorIndex: nat, signature: Option<seq<byte>>, timestamp: int)

  datatype Commit = Commit(height: int, round: int, blockHash: seq<byte>, signatures: seq<CommitSig>)

  datatype CommitCheck = Accepted | NilCommit | HeightMismatch | HashMismatch
                       | InsufficientQuorum(got: int, need: int)

  /** Ed25519 verification of (public key, message, signature). */
  type Verifier = (seq<byte>, seq<byte>, seq<byte>) -> bool

  // ----- power of sets of validators

  /** The voting power held by the validators whose index is in s. */
  ghost function PowerOf(w: seq<int>, s: set<int>): int {
    if w == [] then 0
    else PowerOf(w[..|w| - 1], s) + (if |w| - 1 in s then w[|w| - 1] else 0)
  }

  lemma {:induction false} InclusionExclusion(w: seq<int>, a: set<int>, b: set<int>)
    ensures PowerOf(w, a) + PowerOf(w, b) == PowerOf(w, a + b) + PowerOf(w, a * b)
  {
    if w != [] { InclusionExclusion(w[..|w| - 1], a, b); }
  }

  lemma {:induction false} PowerAtMostTotal(w: seq<int>, s: set<int>)
    requires AllPositive(w)
    ensures 0 <= PowerOf(w, s) <= Sum(w)
    ensures (forall i :: 0 <= i < |w| ==> i in s) ==> PowerOf(w, s) == Sum(w)
  {
    if w != [] {
      PowerAtMostTotal(w[..|w| - 1], s);
      SumPrefix(w, |w| - 1);
      assert w[..|w|] == w;
    }
  }

  lemma {:induction false} PowerInsert(w: seq<int>, s: set<int>, i: int)
    requires i !in s
    ensures PowerOf(w, s + {i}) == PowerOf(w, s) + (if 0 <= i < |w| then w[i] else 0)
  {
    if w != [] { PowerInsert(w[..|w| - 1], s, i); }
  }

  // ----- the quorum threshold

  /** Division that rounds toward zero. */
  function TruncDiv(x: int, d: int): int
    requires d > 0
  {
    if x >= 0 then x / d else -(-x / d)
  }

  function Quorum(total: int): int {
    if total > MAX_INT64 / 2 then total / 3 * 2 + 1 else TruncDiv(Wrap(2 * total), 3) + 1
  }

  /** Above MaxInt64/2 the division-first form is one short exactly when total mod 3 is 2. */
  lemma DivisionFirst(total: int)
    requires 0 <= total
    ensures total <= MAX_INT64 / 2 ==> Quorum(total) == (2 * total) / 3 + 1
    ensures total > MAX_INT64 / 2 ==>
      Quorum(total) == (2 * total) / 3 + 1 - (if total % 3 == 2 then 1 else 0)
    ensures 3 * Quorum(total) > 2 * total <==> total <= MAX_INT64 / 2 || total % 3 != 2
    ensures total >= 1 ==> 1 <= Quorum(total) <= total
  {
  }

  /** Any two sets that reach the quorum share more than a third of the power. */
  ghost predicate QuorumsIntersect(total: int) {
    forall w: seq<int>, a: set<int>, b: set<int> ::
      AllPositive(w) && Sum(w) == total && PowerOf(w, a) >= Quorum(total) && PowerOf(w, b) >= Quorum(total)
      ==> 3 * PowerOf(w, a * b) > total
  }

  lemma SharedPower(w: seq<int>, a: set<int>, b: set<int>)
    requires AllPositive(w)
    requires PowerOf(w, a) >= Quorum(Sum(w)) && PowerOf(w, b) >= Quorum(Sum(w))
    ensures PowerOf(w, a * b) >= 2 * Quorum(Sum(w)) - Sum(w)
  {
    InclusionExclusion(w, a, b);
    PowerAtMostTotal(w, a + b);
  }

  /** Three validators whose powers differ by one defeat a quorum that is one short. */
  lemma TightSplit(m: int)
    requires m >= 1
    ensures var w := [m, m + 1, m + 1];
      && AllPositive(w) && Sum(w) == 3 * m + 2
      && PowerOf(w, {0, 1}) == PowerOf(w, {0, 2}) == 2 * m + 1
      && PowerOf(w, {0, 1} * {0, 2}) == m
  {
    var w := [m, m + 1, m + 1];
    PowerOfThree(m, m + 1, m + 1, {0, 1});
    PowerOfThree(m, m + 1, m + 1, {0, 2});
    PowerOfThree(m, m + 1, m + 1, {0, 1} * {0, 2});
    assert w == [m] + [m + 1] + [m + 1];
    SumAppend([m] + [m + 1], [m + 1]);
    SumAppend([m], [m + 1]);
  }

  lemma PowerOfThree(a: int, b: int, c: int, s: set<int>)
    ensures PowerOf([a, b, c], s) == (if 0 in s then a else 0) + (if 1 in s then b else 0) + (if 2 in s then c else 0)
  {
    assert [a, b, c][..2] == [a, b] && [a, b][..1] == [a] && [a][..0] == [];
    assert PowerOf([a], s) == if 0 in s then a else 0;
    assert PowerOf([a, b], s) == PowerOf([a], s) + if 1 in s then b else 0;
  }

  /** Quorum intersection holds for a total exactly when the division-first
      branch is not one short for it. */
  lemma IntersectionExact(total: int)
    requires 1 <= total <= MAX_INT64
    ensures QuorumsIntersect(total) <==> total <= MAX_INT64 / 2 || total % 3 != 2
  {
    if total <= MAX_INT64 / 2 || total % 3 != 2 {
      DivisionFirst(total);
      forall w: seq<int>, a: set<int>, b: set<int> |
        AllPositive(w) && Sum(w) == total && PowerOf(w, a) >= Quorum(total) && PowerOf(w, b) >= Quorum(total)
        ensures 3 * PowerOf(w, a * b) > total
      {
        SharedPower(w, a, b);
      }
    } else {
      var m := total / 3;
      TightSplit(m);
      var w := [m, m + 1, m + 1];
      assert 3 * PowerOf(w, {0, 1} * {0, 2}) <= total;
    }
  }

  // ----- totals that do not fit

  /** The wrapped total differs from the sum by a multiple of 2^64. */
  lemma {:induction false} MachineTotalWraps(w: seq<int>) returns (m: int)
    ensures MachineTotal(w) == Sum(w) - m * TWO_64 && InRange(MachineTotal(w))
  {
    if w == [] {
      m := 0;
    } else {
      var init, last := w[..|w| - 1], w[|w| - 1];
      assert w == init + [last];
      SumAppend(init, [last]);
      var k := MachineTotalWraps(init);
      var l := WrapIs(MachineTotal(init) + last);
      m := k + l;
    }
  }

  lemma WrapIs(x: int) returns (m: int)
    ensures Wrap(x) == x - m * TWO_64
  {
    m := if InRange(x) then 0 else (x - MIN_INT64) / TWO_64;
  }

  /** A quorum computed from a wrapped total is too small. */
  lemma WrappedQuorum(sum: int, m: int)
    requires sum > MAX_INT64 && InRange(sum - m * TWO_64)
    ensures 3 * Quorum(sum - m * TWO_64) <= sum + 1 && Quorum(sum - m * TWO_64) <= sum - MAX_INT64
  {
    var total := sum - m * TWO_64;
    assert m >= 1;
    if total >= 0 {
      DivisionFirst(total);
    } else if !InRange(2 * total) {
      assert Wrap(2 * total) == 2 * total + TWO_64;
    }
  }

  predicate IsBelow(i: int, j: int) {
    0 <= i < j
  }

  /** The first j indices. */
  ghost function Below(j: int): set<int> {
    set i | 0 <= i < j && IsBelow(i, j)
  }

  lemma {:induction false} PowerBelow(w: seq<int>, j: nat)
    requires j <= |w|
    ensures PowerOf(w, Below(j)) == Sum(w[..j])
  {
    if w == [] {
    } else if j == |w| {
      PowerBelow(w[..j - 1], j - 1);
      PowerGrows(w[..j - 1], j - 1);
      SumPrefix(w, j - 1);
      assert w[..j - 1][..j - 1] == w[..j - 1] && w[..j] == w;
    } else {
      PowerBelow(w[..|w| - 1], j);
      assert w[..|w| - 1][..j] == w[..j];
    }
  }

  /** Indices beyond the list do not matter. */
  lemma {:induction false} PowerGrows(w: seq<int>, j: nat)
    requires |w| <= j
    ensures PowerOf(w, Below(j + 1)) == PowerOf(w, Below(j))
  {
    if w != [] { PowerGrows(w[..|w| - 1], j); }
  }

  lemma PowerOfOne(w: seq<int>, j: nat)
    requires j < |w|
    ensures PowerOf(w, {j}) == w[j]
  {
    PowerOfNone(w);
    PowerInsert(w, {}, j);
    assert {} + {j} == {j};
  }

  /** What the others hold. */
  lemma PowerOfOthers(w: seq<int>, a: set<int>)
    requires AllPositive(w)
    ensures PowerOf(w, Below(|w|) - a) == Sum(w) - PowerOf(w, a * Below(|w|))
    ensures PowerOf(w, a * Below(|w|)) == PowerOf(w, a)
  {
    var all := Below(|w|);
    InclusionExclusion(w, all - a, a * all);
    assert (all - a) + (a * all) == all && (all - a) * (a * all) == {};
    PowerOfNone(w);
    PowerAtMostTotal(w, all);
    InclusionExclusion(w, a, all);
    PowerAtMostTotal(w, a + all);
  }

  lemma {:induction false} FirstReaching(w: seq<int>, q: int) returns (j: nat)
    requires 0 < q <= Sum(w)
    ensures j < |w| && Sum(w[..j]) < q <= Sum(w[..j + 1])
  {
    var init := w[..|w| - 1];
    SumPrefix(w, |w| - 1);
    assert w[..|w|] == w;
    if Sum(init) < q {
      j := |w| - 1;
    } else {
      j := FirstReaching(init, q);
      assert init[..j] == w[..j] && init[..j + 1] == w[..j + 1];
    }
  }

  /** A validator set whose powers sum to more than an int64 holds has two
      quorums without a single common member. */
  lemma OverflowBreaksIntersection(w: seq<int>) returns (a: set<int>, b: set<int>)
    requires AllPositive(w) && (forall i :: 0 <= i < |w| ==> w[i] <= MAX_INT64) && Sum(w) > MAX_INT64
    ensures a * b == {} && a <= Below(|w|) && b <= Below(|w|)
    ensures PowerOf(w, a) >= Quorum(MachineTotal(w)) && PowerOf(w, b) >= Quorum(MachineTotal(w))
  {
    hide PowerOf, Quorum, MachineTotal, Wrap;
    var m := MachineTotalWraps(w);
    WrappedQuorum(Sum(w), m);
    var q := Quorum(MachineTotal(w));
    if q <= 0 {
      PowerOfNone(w);
      a, b := {}, {};
    } else {
      var j := FirstReaching(w, q);
      SumPrefix(w, j);
      if w[j] >= q {
        PowerOfOne(w, j);
        a := {j};
      } else {
        PowerBelow(w, j + 1);
        a := Below(j + 1);
      }
      PowerOfOthers(w, a);
      b := Below(|w|) - a;
    }
  }

  // ----- what is signed

  function CommitSignBytes(height: int, round: int, blockHash: seq<byte>): (b: seq<byte>)
    requires InRange(height) && -0x8000_0000 <= round <= 0x7fff_ffff
    ensures |b| == 12 + |blockHash|
  {
    EncodeInt64(height) + BigEndian(if round < 0 then round + 0x1_0000_0000 else round, 4) + blockHash
  }

  /** The signed bytes determine height, round and block hash, so a signature
      for one commit verifies for no other. */
  lemma SignBytesInjective(h: int, r: int, hash: seq<byte>, h': int, r': int, hash': seq<byte>)
    requires InRange(h) && InRange(h')
    requires -0x8000_0000 <= r <= 0x7fff_ffff && -0x8000_0000 <= r' <= 0x7fff_ffff
    requires CommitSignBytes(h, r, hash) == CommitSignBytes(h', r', hash')
    ensures h == h' && r == r' && hash == hash'
  {
    var b, b' := CommitSignBytes(h, r, hash), CommitSignBytes(h', r', hash');
    assert b[..8] == EncodeInt64(h) && b'[..8] == EncodeInt64(h');
    EncodeInt64Injective(h, h');
    var u := if r < 0 then r + 0x1_0000_0000 else r;
    var u' := if r' < 0 then r' + 0x1_0000_0000 else r';
    assert b[8..12] == BigEndian(u, 4) && b'[8..12] == BigEndian(u', 4);
    Widths();
    BigEndianInjective(u, u', 4);
    assert b[12..] == hash && b'[12..] == hash';
  }

  // ----- commit verification

  /** A signature that VerifyCommit counts. */
  predicate Counts(vs: seq<Validator>, verify: Verifier, signBytes: seq<byte>, sig: CommitSig) {
    && sig.signature.Some?
    && sig.validatorIndex < |vs|
    && |vs[sig.validatorIndex].publicKey| == PUBLIC_KEY_SIZE
    && |sig.signature.value| == SIGNATURE_SIZE
    && verify(vs[sig.validatorIndex].publicKey, signBytes, sig.signature.value)
  }

  /** The loop's accumulator after a prefix of the signatures. */
  function Tally(vs: seq<Validator>, verify: Verifier, signBytes: seq<byte>, sigs: seq<CommitSig>): int {
    if sigs == [] then 0 else
      var last := sigs[|sigs| - 1];
      var before := Tally(vs, verify, signBytes, sigs[..|sigs| - 1]);
      if Counts(vs, verify, signBytes, last) then Wrap(before + vs[last.validatorIndex].votingPower) else before
  }

  /** The validators with a counted signature. */
  ghost function Signers(vs: seq<Validator>, verify: Verifier, signBytes: seq<byte>, sigs: seq<CommitSig>): set<int> {
    set k | 0 <= k < |sigs| && Counts(vs, verify, signBytes, sigs[k]) :: sigs[k].validatorIndex
  }

  /** No validator has two counted signatures. */
  ghost predicate CountedOnce(vs: seq<Validator>, verify: Verifier, signBytes: seq<byte>, sigs: seq<CommitSig>) {
    forall i, j :: 0 <= i < j < |sigs| && Counts(vs, verify, signBytes, sigs[i]) && Counts(vs, verify, signBytes, sigs[j]) ==>
      sigs[i].validatorIndex != sigs[j].validatorIndex
  }

  ghost predicate TotalFits(vs: seq<Validator>) {
    AllPositive(Powers(vs)) && Sum(Powers(vs)) <= MAX_INT64
  }

  /** The power of the counted signatures, without wrap-around. */
  function CountedPower(vs: seq<Validator>, verify: Verifier, signBytes: seq<byte>, sigs: seq<CommitSig>): int {
    if sigs == [] then 0 else
      var last := sigs[|sigs| - 1];
      CountedPower(vs, verify, signBytes, sigs[..|sigs| - 1])
      + if Counts(vs, verify, signBytes, last) then vs[last.validatorIndex].votingPower else 0
  }

  lemma SignersGrow(vs: seq<Validator>, verify: Verifier, signBytes: seq<byte>, sigs: seq<CommitSig>)
    requires sigs != []
    ensures var init, last := sigs[..|sigs| - 1], sigs[|sigs| - 1];
      var before, after := Signers(vs, verify, signBytes, init), Signers(vs, verify, signBytes, sigs);
      && after == (if Counts(vs, verify, signBytes, last) then before + {last.validatorIndex} else before)
      && (CountedOnce(vs, verify, signBytes, sigs) <==>
            && CountedOnce(vs, verify, signBytes, init)
            && (Counts(vs, verify, signBytes, last) ==> last.validatorIndex !in before))
  {
    hide Counts;
    var init, last := sigs[..|sigs| - 1], sigs[|sigs| - 1];
    assert forall i :: 0 <= i < |init| ==> init[i] == sigs[i];
    assert forall k :: 0 <= k < |init| && Counts(vs, verify, signBytes, init[k]) ==>
        init[k].validatorIndex in Signers(vs, verify, signBytes, init);
  }

  /** The accumulator is the power of the signers exactly when no validator is
      counted twice; it is greater otherwise. */
  lemma {:induction false} TallyExact(vs: seq<Validator>, verify: Verifier, signBytes: seq<byte>, sigs: seq<CommitSig>)
    requires AllPositive(Powers(vs))
    ensures var power := PowerOf(Powers(vs), Signers(vs, verify, signBytes, sigs));
      && 0 <= power <= CountedPower(vs, verify, signBytes, sigs)
      && (CountedPower(vs, verify, signBytes, sigs) == power <==> CountedOnce(vs, verify, signBytes, sigs))
    ensures CountedPower(vs, verify, signBytes, sigs) <= MAX_INT64 ==>
      Tally(vs, verify, signBytes, sigs) == CountedPower(vs, verify, signBytes, sigs)
  {
    hide CountedOnce, Signers, PowerOf, Wrap, AllPositive;
    var w := Powers(vs);
    if sigs == [] {
      NoSigners(vs, verify, signBytes);
    } else {
      var init, last := sigs[..|sigs| - 1], sigs[|sigs| - 1];
      TallyExact(vs, verify, signBytes, init);
      SignersGrow(vs, verify, signBytes, sigs);
      if Counts(vs, verify, signBytes, last) {
        var before := Signers(vs, verify, signBytes, init);
        PositiveAt(w, last.validatorIndex);
        if last.validatorIndex in before {
          assert before + {last.validatorIndex} == before;
        } else {
          PowerInsert(w, before, last.validatorIndex);
        }
      }
    }
  }

  lemma PositiveAt(w: seq<int>, i: nat)
    requires AllPositive(w) && i < |w|
    ensures w[i] > 0
  {
  }

  lemma NoSigners(vs: seq<Validator>, verify: Verifier, signBytes: seq<byte>)
    ensures Signers(vs, verify, signBytes, []) == {} && CountedOnce(vs, verify, signBytes, [])
    ensures PowerOf(Powers(vs), {}) == 0
  {
    PowerOfNone(Powers(vs));
  }

  /** With no validator counted twice the accumulator is the power of the signers. */
  lemma TallyIsSignerPower(vs: seq<Validator>, verify: Verifier, signBytes: seq<byte>, sigs: seq<CommitSig>)
    requires TotalFits(vs) && CountedOnce(vs, verify, signBytes, sigs)
    ensures Tally(vs, verify, signBytes, sigs) == PowerOf(Powers(vs), Signers(vs, verify, signBytes, sigs))
  {
    hide CountedOnce, Signers, PowerOf;
    TallyExact(vs, verify, signBytes, sigs);
    PowerAtMostTotal(Powers(vs), Signers(vs, verify, signBytes, sigs));
  }

  lemma {:induction false} PowerOfNone(w: seq<int>)
    ensures PowerOf(w, {}) == 0
  {
    if w != [] { PowerOfNone(w[..|w| - 1]); }
  }

  datatype SetError = NilValidator(at: nat) | InvalidVotingPower(at: nat) | DuplicateValidator(at: nat)

  ghost predicate Admissible(vs: seq<Option<Validator>>, i: nat)
    requires i < |vs|
  {
    && vs[i].Some? && vs[i].value.votingPower > 0
    && forall j :: 0 <= j < i && vs[j].Some? ==> vs[j].value.address != vs[i].value.address
  }

  /** The copies carry their position as a uint16. */
  function Reindexed(vs: seq<Validator>): (r: seq<Validator>)
    ensures |r| == |vs| && forall i :: 0 <= i < |vs| ==> r[i] == vs[i].(index := i % 0x1_0000)
  {
    seq(|vs|, i requires 0 <= i < |vs| => vs[i].(index := i % 0x1_0000))
  }

  class SimpleValidatorSet {
    const validators: seq<Validator>
    const totalPower: int

    ghost predicate Valid() {
      totalPower == MachineTotal(Powers(validators))
    }

    constructor (vs: seq<Validator>)
      ensures Valid() && validators == Reindexed(vs)
    {
      validators := Reindexed(vs);
      var total := 0;
      var w := Powers(vs);
      for i := 0 to |vs|
        invariant total == MachineTotal(w[..i])
      {
        assert w[..i + 1][..i] == w[..i];
        total := Wrap(total + vs[i].votingPower);
      }
      assert w[..|vs|] == w == Powers(Reindexed(vs));
      totalPower := total;
    }

    /** Builds a set exactly from a list without nil entries, with positive
        powers and without repeated addresses. */
    static method New(vs: seq<Option<Validator>>) returns (err: Option<SetError>, s: SimpleValidatorSet?)
      ensures err.None? <==> s != null
      ensures err.None? <==> forall i :: 0 <= i < |vs| ==> Admissible(vs, i)
      ensures err.Some? ==> err.value.at < |vs| && !Admissible(vs, err.value.at)
      ensures err.Some? ==> forall i :: 0 <= i < err.value.at ==> Admissible(vs, i)
      ensures s != null ==> s.Valid() && |s.validators| == |vs| && AllPositive(Powers(s.validators))
      ensures s != null ==> forall i :: 0 <= i < |vs| ==>
        vs[i].Some? && s.validators[i] == vs[i].value.(index := i % 0x1_0000)
    {
      var list: seq<Validator> := [];
      var seen: set<seq<byte>> := {};
      for i := 0 to |vs|
        invariant |list| == i && forall j :: 0 <= j < i ==> Admissible(vs, j)
        invariant forall j :: 0 <= j < i ==> vs[j] == Some(list[j])
        invariant forall a :: a in seen <==> exists j :: 0 <= j < i && list[j].address == a
      {
        assert Admissible(vs, i) <==> vs[i].Some? && vs[i].value.votingPower > 0 && vs[i].value.address !in seen;
        if vs[i].None? { return Some(NilValidator(i)), null; }
        var v := vs[i].value;
        if v.votingPower <= 0 { return Some(InvalidVotingPower(i)), null; }
        if v.address in seen { return Some(DuplicateValidator(i)), null; }
        seen := seen + {v.address};
        list := list + [v];
      }
      err := None;
      s := new SimpleValidatorSet(list);
      forall i | 0 <= i < |vs| ensures vs[i].value.votingPower > 0 { assert Admissible(vs, i); }
    }

    /** Accepts a commit exactly when it is for this height and hash and its
        tally reaches the quorum; each refusal names its cause. */
    method VerifyCommit(verify: Verifier, height: int, blockHash: seq<byte>, commit: Option<Commit>)
      returns (r: CommitCheck)
      requires Valid() && InRange(height)
      requires commit.Some? ==> -0x8000_0000 <= commit.value.round <= 0x7fff_ffff
      ensures r == Check(validators, verify, height, blockHash, commit)
    {
      if commit.None? { return NilCommit; }
      var c := commit.value;
      if c.height != height { return HeightMismatch; }
      if c.blockHash != blockHash { return HashMismatch; }
      var votingPower := 0;
      var signBytes := CommitSignBytes(height, c.round, blockHash);
      for k := 0 to |c.signatures|
        invariant votingPower == Tally(validators, verify, signBytes, c.signatures[..k])
      {
        assert c.signatures[..k + 1][..k] == c.signatures[..k];
        var sig := c.signatures[k];
        if sig.signature.None? { continue; }
        if sig.validatorIndex >= |validators| { continue; }
        var validator := validators[sig.validatorIndex];
        if |validator.publicKey| != PUBLIC_KEY_SIZE { continue; }
        if |sig.signature.value| != SIGNATURE_SIZE { continue; }
        if !verify(validator.publicKey, signBytes, sig.signature.value) { continue; }
        votingPower := Wrap(votingPower + validator.votingPower);
      }
      assert c.signatures[..|c.signatures|] == c.signatures;
      var quorum := Quorum(totalPower);
      if votingPower < quorum { return InsufficientQuorum(votingPower, quorum); }
      return Accepted;
    }
  }

  function Check(vs: seq<Validator>, verify: Verifier, height: int, blockHash: seq<byte>,
                 commit: Option<Commit>): CommitCheck
    requires InRange(height)
    requires commit.Some? ==> -0x8000_0000 <= commit.value.round <= 0x7fff_ffff
  {
    if commit.None? then NilCommit
    else if commit.value.height != height then HeightMismatch
    else if commit.value.blockHash != blockHash then HashMismatch
    else
      var got := Tally(vs, verify, CommitSignBytes(height, commit.value.round, blockHash), commit.value.signatures);
      var need := Quorum(MachineTotal(Powers(vs)));
      if got < need then InsufficientQuorum(got, need) else Accepted
  }

  /** Those who validly signed commit c. */
  ghost function CommitSigners(vs: seq<Validator>, verify: Verifier, c: Commit): set<int>
    requires InRange(c.height) && -0x8000_0000 <= c.round <= 0x7fff_ffff
  {
    Signers(vs, verify, CommitSignBytes(c.height, c.round, c.blockHash), c.signatures)
  }

  ghost predicate SignedOnce(vs: seq<Validator>, verify: Verifier, c: Commit)
    requires InRange(c.height) && -0x8000_0000 <= c.round <= 0x7fff_ffff
  {
    CountedOnce(vs, verify, CommitSignBytes(c.height, c.round, c.blockHash), c.signatures)
  }

  /** With no validator counted twice, acceptance means exactly that the signers hold a quorum. */
  lemma AcceptedIffSignersHoldQuorum(vs: seq<Validator>, verify: Verifier, c: Commit)
    requires InRange(c.height) && -0x8000_0000 <= c.round <= 0x7fff_ffff
    requires TotalFits(vs) && SignedOnce(vs, verify, c)
    ensures Check(vs, verify, c.height, c.blockHash, Some(c)) == Accepted
      <==> PowerOf(Powers(vs), CommitSigners(vs, verify, c)) >= Quorum(Sum(Powers(vs)))
  {
    MachineTotalExact(Powers(vs));
    TallyIsSignerPower(vs, verify, CommitSignBytes(c.height, c.round, c.blockHash), c.signatures);
  }

  /** Signature k is by validator i and its key verifies it for this message. */
  ghost predicate SignedAt(vs: seq<Validator>, verify: Verifier, msg: seq<byte>, sigs: seq<CommitSig>, i: int, k: int) {
    && 0 <= i < |vs| && 0 <= k < |sigs| && sigs[k].validatorIndex == i && sigs[k].signature.Some?
    && |vs[i].publicKey| == 32 && |sigs[k].signature.value| == 64
    && verify(vs[i].publicKey, msg, sigs[k].signature.value)
  }

  /** Everybody in the set has signed the message. */
  ghost predicate AllSigned(vs: seq<Validator>, verify: Verifier, msg: seq<byte>, sigs: seq<CommitSig>, signers: set<int>) {
    forall i :: i in signers ==> exists k :: SignedAt(vs, verify, msg, sigs, i, k)
  }

  /** What has to hold of a commit, said without the loop: it is for this height
      and block, and some set of validators with a quorum has signed exactly that. */
  ghost predicate Justified(vs: seq<Validator>, verify: Verifier, height: int, blockHash: seq<byte>, c: Commit)
    requires InRange(height) && -0x8000_0000 <= c.round <= 0x7fff_ffff
  {
    && c.height == height && c.blockHash == blockHash
    && exists signers: set<int> ::
         && AllSigned(vs, verify, CommitSignBytes(height, c.round, blockHash), c.signatures, signers)
         && PowerOf(Powers(vs), signers) >= Quorum(Sum(Powers(vs)))
  }

  ghost predicate NoIndexTwice(sigs: seq<CommitSig>) {
    forall j, k :: 0 <= j < k < |sigs| ==> sigs[j].validatorIndex != sigs[k].validatorIndex
  }

  lemma SignersSigned(vs: seq<Validator>, verify: Verifier, msg: seq<byte>, sigs: seq<CommitSig>)
    ensures AllSigned(vs, verify, msg, sigs, Signers(vs, verify, msg, sigs))
  {
    forall i | i in Signers(vs, verify, msg, sigs) ensures exists k :: SignedAt(vs, verify, msg, sigs, i, k) {
      var k :| 0 <= k < |sigs| && Counts(vs, verify, msg, sigs[k]) && sigs[k].validatorIndex == i;
      assert SignedAt(vs, verify, msg, sigs, i, k);
    }
  }

  lemma SignedAreSigners(vs: seq<Validator>, verify: Verifier, msg: seq<byte>, sigs: seq<CommitSig>, signers: set<int>)
    requires AllSigned(vs, verify, msg, sigs, signers)
    ensures signers <= Signers(vs, verify, msg, sigs)
  {
    forall i | i in signers ensures i in Signers(vs, verify, msg, sigs) {
      var k :| SignedAt(vs, verify, msg, sigs, i, k);
      assert Counts(vs, verify, msg, sigs[k]);
    }
  }

  /** More validators hold no less power. */
  lemma {:induction false} PowerMonotone(w: seq<int>, a: set<int>, b: set<int>)
    requires AllPositive(w) && a <= b
    ensures PowerOf(w, a) <= PowerOf(w, b)
  {
    if w != [] { PowerMonotone(w[..|w| - 1], a, b); }
  }

  /** With no index repeated and a total that fits, a commit is accepted if and
      only if it is justified. */
  lemma AcceptedIffJustified(vs: seq<Validator>, verify: Verifier, height: int, blockHash: seq<byte>, c: Commit)
    requires InRange(height) && -0x8000_0000 <= c.round <= 0x7fff_ffff
    requires TotalFits(vs) && NoIndexTwice(c.signatures)
    ensures Check(vs, verify, height, blockHash, Some(c)) == Accepted <==> Justified(vs, verify, height, blockHash, c)
  {
    hide PowerOf, Quorum, CommitSignBytes, Signers, AllSigned, Tally, Counts, TotalFits;
    if c.height == height && c.blockHash == blockHash {
      OnceIfDistinct(vs, verify, c);
      AcceptedIffSignersHoldQuorum(vs, verify, c);
      var msg := CommitSignBytes(height, c.round, blockHash);
      SignersSigned(vs, verify, msg, c.signatures);
      forall signers | AllSigned(vs, verify, msg, c.signatures, signers)
        ensures PowerOf(Powers(vs), signers) <= PowerOf(Powers(vs), Signers(vs, verify, msg, c.signatures))
      {
        SignedAreSigners(vs, verify, msg, c.signatures, signers);
        FitsPositive(vs);
        PowerMonotone(Powers(vs), signers, Signers(vs, verify, msg, c.signatures));
      }
    }
  }

  lemma FitsPositive(vs: seq<Validator>)
    requires TotalFits(vs)
    ensures AllPositive(Powers(vs))
  {
  }

  lemma OnceIfDistinct(vs: seq<Validator>, verify: Verifier, c: Commit)
    requires InRange(c.height) && -0x8000_0000 <= c.round <= 0x7fff_ffff && NoIndexTwice(c.signatures)
    ensures SignedOnce(vs, verify, c)
  {
    hide Counts, CommitSignBytes;
  }

  /** Whatever the indices: an accepted commit is for the height and block asked
      for, and somebody has signed it. */
  lemma AcceptedIsSigned(vs: seq<Validator>, verify: Verifier, height: int, blockHash: seq<byte>, commit: Option<Commit>)
    requires InRange(height) && (commit.Some? ==> -0x8000_0000 <= commit.value.round <= 0x7fff_ffff)
    requires TotalFits(vs) && Check(vs, verify, height, blockHash, commit) == Accepted
    ensures commit.Some? && commit.value.height == height && commit.value.blockHash == blockHash
    ensures exists i, k :: SignedAt(vs, verify, CommitSignBytes(height, commit.value.round, blockHash), commit.value.signatures, i, k)
  {
    hide CommitSignBytes, SignedAt;
    var c := commit.value;
    var msg := CommitSignBytes(height, c.round, blockHash);
    MachineTotalExact(Powers(vs));
    if vs != [] {
      SumPositive(Powers(vs));
      DivisionFirst(Sum(Powers(vs)));
    }
    var k := SomeoneCounted(vs, verify, msg, c.signatures);
    CountedIsSigned(vs, verify, msg, c.signatures, k);
  }

  lemma CountedIsSigned(vs: seq<Validator>, verify: Verifier, msg: seq<byte>, sigs: seq<CommitSig>, k: nat)
    requires k < |sigs| && Counts(vs, verify, msg, sigs[k])
    ensures SignedAt(vs, verify, msg, sigs, sigs[k].validatorIndex, k)
  {
  }

  lemma {:induction false} SomeoneCounted(vs: seq<Validator>, verify: Verifier, msg: seq<byte>, sigs: seq<CommitSig>) returns (k: nat)
    requires Tally(vs, verify, msg, sigs) > 0
    ensures k < |sigs| && Counts(vs, verify, msg, sigs[k])
  {
    hide Counts;
    var last := |sigs| - 1;
    if Counts(vs, verify, msg, sigs[last]) {
      k := last;
    } else {
      k := SomeoneCounted(vs, verify, msg, sigs[..last]);
    }
  }

  /** What is signed can be read back: eight bytes of height, four of round, the hash. */
  lemma SignBytesLayout(height: int, round: int, blockHash: seq<byte>)
    requires InRange(height) && -0x8000_0000 <= round <= 0x7fff_ffff
    ensures var b := CommitSignBytes(height, round, blockHash);
      && DecodeInt64(b[..8]) == height
      && FromBigEndian(b[8..12]) == (if round < 0 then round + 0x1_0000_0000 else round)
      && b[12..] == blockHash
  {
    var b := CommitSignBytes(height, round, blockHash);
    var u := if round < 0 then round + 0x1_0000_0000 else round;
    assert b[..8] == EncodeInt64(height) && b[8..12] == BigEndian(u, 4) && b[12..] == blockHash;
    Widths();
    EncodeThenDecode(u, 4);
    Int64RoundTrip(height, []);
    assert EncodeInt64(height) + [] == EncodeInt64(height);
  }

  /** Two accepted commits, for whatever heights, rounds and blocks, were both
      signed by validators that together hold more than a third of the power. */
  lemma AcceptedCommitsIntersect(vs: seq<Validator>, verify: Verifier, c: Commit, d: Commit)
    requires InRange(c.height) && -0x8000_0000 <= c.round <= 0x7fff_ffff
    requires InRange(d.height) && -0x8000_0000 <= d.round <= 0x7fff_ffff
    requires TotalFits(vs) && SignedOnce(vs, verify, c) && SignedOnce(vs, verify, d)
    requires Check(vs, verify, c.height, c.blockHash, Some(c)) == Accepted
    requires Check(vs, verify, d.height, d.blockHash, Some(d)) == Accepted
    requires Sum(Powers(vs)) <= MAX_INT64 / 2 || Sum(Powers(vs)) % 3 != 2
    ensures 3 * PowerOf(Powers(vs), CommitSigners(vs, verify, c) * CommitSigners(vs, verify, d)) > Sum(Powers(vs))
  {
    AcceptedIffSignersHoldQuorum(vs, verify, c);
    AcceptedIffSignersHoldQuorum(vs, verify, d);
    var a, b := CommitSigners(vs, verify, c), CommitSigners(vs, verify, d);
    SharedPower(Powers(vs), a, b);
    SumPositive(Powers(vs));
    DivisionFirst(Sum(Powers(vs)));
  }

  /** A commit that every validator validly signed is accepted. */
  lemma UnanimousIsAccepted(vs: seq<Validator>, verify: Verifier, c: Commit)
    requires InRange(c.height) && -0x8000_0000 <= c.round <= 0x7fff_ffff
    requires vs != [] && TotalFits(vs) && SignedOnce(vs, verify, c)
    requires forall i :: 0 <= i < |vs| ==> i in CommitSigners(vs, verify, c)
    ensures Check(vs, verify, c.height, c.blockHash, Some(c)) == Accepted
  {
    AcceptedIffSignersHoldQuorum(vs, verify, c);
    PowerAtMostTotal(Powers(vs), CommitSigners(vs, verify, c));
    SumPositive(Powers(vs));
    DivisionFirst(Sum(Powers(vs)));
  }

  /** The loop does not look for repeats: one of three equal validators,
      listed three times, passes for a quorum. */
  lemma RepeatedIndexIsCountedAgain(key: seq<byte>, sig: seq<byte>)
    requires |key| == PUBLIC_KEY_SIZE && |sig| == SIGNATURE_SIZE
    ensures
      var v := Validator(0, [], key, 1, 0);
      var s := CommitSig(0, Some(sig), 0);
      var c := Commit(1, 0, [], [s, s, s]);
      && Check([v, v, v], (_, _, _) => true, 1, [], Some(c)) == Accepted
      && CommitSigners([v, v, v], (_, _, _) => true, c) == {0}
      && Quorum(Sum(Powers([v, v, v]))) == 3
  {
    var v := Validator(0, [], key, 1, 0);
    var s := CommitSig(0, Some(sig), 0);
    var c := Commit(1, 0, [], [s, s, s]);
    var verify: Verifier := (_, _, _) => true;
    var msg := CommitSignBytes(1, 0, []);
    assert [s, s, s][..2] == [s, s] && [s, s][..1] == [s] && [s][..0] == [];
    assert Counts([v, v, v], verify, msg, s);
    assert Tally([v, v, v], verify, msg, [s]) == 1;
    assert Tally([v, v, v], verify, msg, [s, s]) == 2;
    assert Tally([v, v, v], verify, msg, [s, s, s]) == 3;
    SumConstant(Powers([v, v, v]), 1);
    MachineTotalExact(Powers([v, v, v]));
    assert c.signatures[0] == s;
    assert CommitSigners([v, v, v], verify, c) == {0};
  }
}
