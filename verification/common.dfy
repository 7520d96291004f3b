/** The source's nil-able results. */
module Wrappers {
  datatype Option<+T> = None | Some(value: T)
}

/** Signed 64-bit arithmetic as the source's `int64` performs it. */
module Int64 {
  const MAX_INT64: int := 0x7fff_ffff_ffff_ffff
  const MIN_INT64: int := -0x8000_0000_0000_0000
  const TWO_64: int := 0x1_0000_0000_0000_0000

  predicate InRange(x: int) {
    MIN_INT64 <= x <= MAX_INT64
  }

  /** The value an `int64` holds after an operation whose exact result is x. */
  function Wrap(x: int): (r: int)
    ensures InRange(r)
    ensures InRange(x) ==> r == x
  {
    if InRange(x) then x else (x - MIN_INT64) % TWO_64 + MIN_INT64
  }
}

/** Sums of integer sequences. */
module Sums {
  function Sum(s: seq<int>): int {
    if s == [] then 0 else s[0] + Sum(s[1..])
  }

  lemma {:induction false} SumAppend(s: seq<int>, t: seq<int>)
    ensures Sum(s + t) == Sum(s) + Sum(t)
  {
    if s == [] {
      assert s + t == t;
    } else {
      assert (s + t)[1..] == s[1..] + t;
      SumAppend(s[1..], t);
    }
  }

  lemma SumPrefix(s: seq<int>, k: nat)
    requires k < |s|
    ensures Sum(s[..k + 1]) == Sum(s[..k]) + s[k]
  {
    assert s[..k + 1] == s[..k] + [s[k]];
    SumAppend(s[..k], [s[k]]);
  }

  lemma {:induction false} SumUpdate(s: seq<int>, i: nat, v: int)
    requires i < |s|
    ensures Sum(s[i := v]) == Sum(s) - s[i] + v
  {
    assert s == s[..i] + ([s[i]] + s[i + 1..]);
    assert s[i := v] == s[..i] + ([v] + s[i + 1..]);
    SumAppend(s[..i], [s[i]] + s[i + 1..]);
    SumAppend(s[..i], [v] + s[i + 1..]);
  }

  /** A sequence that is pointwise a + b sums to the sum of the sums. */
  lemma {:induction false} SumPointwise(s: seq<int>, a: seq<int>, b: seq<int>)
    requires |s| == |a| == |b|
    requires forall i :: 0 <= i < |s| ==> s[i] == a[i] + b[i]
    ensures Sum(s) == Sum(a) + Sum(b)
  {
    if s != [] {
      SumPointwise(s[1..], a[1..], b[1..]);
    }
  }

  lemma {:induction false} SumConstant(s: seq<int>, c: int)
    requires forall i :: 0 <= i < |s| ==> s[i] == c
    ensures Sum(s) == |s| * c
  {
    if s != [] {
      SumConstant(s[1..], c);
      assert |s| * c == (|s| - 1) * c + c;
    }
  }

  /** Pointwise order carries over to sums. */
  lemma {:induction false} SumMonotone(s: seq<int>, t: seq<int>)
    requires |s| == |t|
    requires forall i :: 0 <= i < |s| ==> s[i] <= t[i]
    ensures Sum(s) <= Sum(t)
  {
    if s != [] {
      SumMonotone(s[1..], t[1..]);
    }
  }

  /** Non-negative terms that sum to zero are all zero. */
  lemma {:induction false} ZeroSumOfNonNegatives(s: seq<int>)
    requires forall i :: 0 <= i < |s| ==> s[i] >= 0
    requires Sum(s) <= 0
    ensures forall i :: 0 <= i < |s| ==> s[i] == 0
  {
    forall i | 0 <= i < |s| ensures s[i] == 0 {
      var z := s[i := 0];
      SumUpdate(s, i, 0);
      SumConstant(seq(|s|, _ => 0), 0);
      SumMonotone(seq(|s|, _ => 0), z);
    }
  }

  lemma {:induction false} SumNonNegative(s: seq<int>)
    requires forall i :: 0 <= i < |s| ==> s[i] >= 0
    ensures Sum(s) >= 0
    ensures forall i :: 0 <= i < |s| ==> s[i] <= Sum(s)
  {
    SumConstant(seq(|s|, _ => 0), 0);
    SumMonotone(seq(|s|, _ => 0), s);
    forall i | 0 <= i < |s| ensures s[i] <= Sum(s) {
      SumUpdate(s, i, 0);
      SumMonotone(seq(|s|, _ => 0), s[i := 0]);
    }
  }

  lemma {:induction false} SumPositive(s: seq<int>)
    requires forall i :: 0 <= i < |s| ==> s[i] > 0
    ensures Sum(s) >= |s|
  {
    if s != [] {
      SumPositive(s[1..]);
    }
  }
}
