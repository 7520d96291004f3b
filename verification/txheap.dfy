/** The indexed max-heap of transactions: container/heap over txHeap. */
module TxHeaps {
  import opened Bytes

  type Hash = seq<byte>

  /** mempoolTx and ttlTx; the priority mempool never reads expiresAt. */
  class Entry {
    const hash: Hash
    const tx: seq<byte>
    const priority: int
    var heapIndex: int
    var expiresAt: int

    constructor (hash: Hash, tx: seq<byte>, priority: int, expiresAt: int)
      ensures this.hash == hash && this.tx == tx && this.priority == priority && this.expiresAt == expiresAt
    {
      this.hash, this.tx, this.priority, this.expiresAt := hash, tx, priority, expiresAt;
      heapIndex := 0;
    }
  }

  function Parent(k: int): int {
    (k - 1) / 2
  }

  /** Position k does not outrank its parent. */
  predicate InOrder(s: seq<Entry>, k: int)
    requires 0 < k < |s|
  {
    s[Parent(k)].priority >= s[k].priority
  }

  /** The first n positions form a max-heap. */
  predicate HeapOrdered(s: seq<Entry>, n: int)
    requires n <= |s|
  {
    forall k :: 1 <= k < n ==> InOrder(s, k)
  }

  /** Every position below n is in order except that k may outrank its parent. */
  predicate OrderedButUp(s: seq<Entry>, n: int, j: int)
    requires 0 <= j < n <= |s|
  {
    && (forall k :: 1 <= k < n && k != j ==> InOrder(s, k))
    && (forall k :: 1 <= k < n && Parent(k) == j && j > 0 ==> s[Parent(j)].priority >= s[k].priority)
  }

  /** Only position i is out of order, with its parent or with its children. */
  predicate OrderedButAt(s: seq<Entry>, n: int, i: int)
    requires 0 <= i < n <= |s|
  {
    && (forall k :: 1 <= k < n && k != i && Parent(k) != i ==> InOrder(s, k))
    && (forall k :: 1 <= k < n && Parent(k) == i && i > 0 ==> s[Parent(i)].priority >= s[k].priority)
  }

  ghost predicate Placed(s: seq<Entry>)
    reads s
  {
    forall i :: 0 <= i < |s| ==> s[i].heapIndex == i
  }

  lemma {:induction false} RootIsMax(s: seq<Entry>, k: nat)
    requires k < |s| && HeapOrdered(s, |s|)
    ensures s[0].priority >= s[k].priority
    decreases k
  {
    if k > 0 {
      assert InOrder(s, k);
      RootIsMax(s, Parent(k));
    }
  }

  ghost function Swapped(s: seq<Entry>, i: nat, j: nat): (t: seq<Entry>)
    requires i < |s| && j < |s|
    ensures |t| == |s|
  {
    s[i := s[j]][j := s[i]]
  }

  /** The same entries, in some order. */
  ghost predicate Permutation(s: seq<Entry>, t: seq<Entry>) {
    |s| == |t| && multiset(s) == multiset(t)
  }

  lemma PermutationMembers(s: seq<Entry>, t: seq<Entry>)
    requires Permutation(s, t)
    ensures forall e :: e in s <==> e in t
  {
    assert forall e :: e in s <==> e in multiset(s);
    assert forall e :: e in t <==> e in multiset(t);
  }

  lemma SwappedPermutation(s: seq<Entry>, i: nat, j: nat, t: seq<Entry>)
    requires i < |s| && j < |s| && Permutation(s, t)
    ensures Permutation(Swapped(s, i, j), t)
  {
  }

  /** Moving j above its parent leaves only the parent's place in question. */
  lemma UpStep(s: seq<Entry>, n: int, j: int)
    requires 0 < j < n <= |s| && OrderedButUp(s, n, j) && !InOrder(s, j)
    ensures OrderedButUp(Swapped(s, Parent(j), j), n, Parent(j))
  {
    var i, t := Parent(j), Swapped(s, Parent(j), j);
    forall k | 1 <= k < n && k != i ensures InOrder(t, k) {
      if k != j && Parent(k) != j { assert InOrder(s, k); }
    }
    forall k | 1 <= k < n && Parent(k) == i && i > 0 ensures t[Parent(i)].priority >= t[k].priority {
      assert InOrder(s, i);
      if k != j { assert InOrder(s, k); }
    }
  }

  /** Moving the larger child j of i up leaves only j's place in question. */
  lemma DownStep(s: seq<Entry>, n: int, i: int, j: int)
    requires 0 <= i < j < n <= |s| && Parent(j) == i && OrderedButAt(s, n, i)
    requires s[j].priority > s[i].priority
    requires forall k :: 1 <= k < n && Parent(k) == i ==> s[k].priority <= s[j].priority
    ensures OrderedButAt(Swapped(s, i, j), n, j)
    ensures InOrder(Swapped(s, i, j), j)
    ensures i > 0 ==> InOrder(Swapped(s, i, j), i)
  {
    var t := Swapped(s, i, j);
    forall k | 1 <= k < n && k != j && Parent(k) != j ensures InOrder(t, k) {
      if k != i && Parent(k) != i { assert InOrder(s, k); }
    }
    forall k | 1 <= k < n && Parent(k) == j ensures t[Parent(j)].priority >= t[k].priority {
      assert InOrder(s, k);
    }
  }

  class TxHeap {
    var items: seq<Entry>

    constructor ()
      ensures items == []
    {
      items := [];
    }

    method Swap(i: nat, j: nat)
      requires i < |items| && j < |items| && Placed(items)
      modifies this, items`heapIndex
      ensures items == Swapped(old(items), i, j) && Placed(items)
    {
      items := items[i := items[j]][j := items[i]];
      items[i].heapIndex := i;
      items[j].heapIndex := j;
    }

    method Up(j0: nat, ghost n: nat)
      requires j0 < n <= |items| && Placed(items) && OrderedButUp(items, n, j0)
      modifies this, items`heapIndex
      ensures Permutation(items, old(items)) && Placed(items)
      ensures HeapOrdered(items, n)
      ensures items[n..] == old(items)[n..]
    {
      hide Permutation, Swapped, OrderedButUp, Placed;
      var j := j0;
      SamePermutation(items);
      UpAtEnd(items, n, j);
      while j != 0 && items[j].priority > items[(j - 1) / 2].priority
        invariant 0 <= j < n && |items| == |old(items)| && Permutation(items, old(items)) && Placed(items)
        invariant OrderedButUp(items, n, j)
        invariant items[n..] == old(items)[n..]
      {
        var i := (j - 1) / 2;
        UpStep(items, n, j);
        SwappedPermutation(items, i, j, old(items));
        SwappedTail(items, i, j, n);
        PermutationMembers(items, old(items));
        assert forall k :: 0 <= k < |items| ==> items[k] in old(items);
        Swap(i, j);
        j := i;
      }
      UpAtEnd(items, n, j);
    }

    method Down(i0: nat, n: nat) returns (moved: bool)
      requires i0 < n <= |items| && Placed(items) && OrderedButAt(items, n, i0)
      modifies this, items`heapIndex
      ensures Permutation(items, old(items)) && Placed(items)
      ensures moved ==> HeapOrdered(items, n)
      ensures !moved ==> items == old(items) && OrderedButUp(items, n, i0)
      ensures items[n..] == old(items)[n..]
    {
      hide Permutation, Swapped, OrderedButUp, OrderedButAt, HeapOrdered, Placed;
      var i := i0;
      SamePermutation(items);
      while true
        invariant i0 <= i < n && |items| == |old(items)| && Permutation(items, old(items)) && Placed(items)
        invariant OrderedButAt(items, n, i)
        invariant if i == i0 then items == old(items) else InOrder(items, i)
        invariant items[n..] == old(items)[n..]
        decreases n - i
      {
        var j1 := 2 * i + 1;
        if j1 >= n { break; }
        var j := j1;
        var j2 := j1 + 1;
        if j2 < n && items[j2].priority > items[j1].priority { j := j2; }
        if items[j].priority <= items[i].priority { break; }
        DownStep(items, n, i, j);
        SwappedPermutation(items, i, j, old(items));
        SwappedTail(items, i, j, n);
        PermutationMembers(items, old(items));
        assert forall k :: 0 <= k < |items| ==> items[k] in old(items);
        Swap(i, j);
        i := j;
      }
      DownAtEnd(items, n, i);
      moved := i > i0;
    }

    method Push(x: Entry)
      requires Placed(items) && HeapOrdered(items, |items|) && x !in items
      modifies this, items`heapIndex, x`heapIndex
      ensures multiset(items) == multiset(old(items)) + multiset{x}
      ensures Placed(items) && HeapOrdered(items, |items|)
    {
      AppendedLast(items, x);
      x.heapIndex := |items|;
      items := items + [x];
      Up(|items| - 1, |items|);
    }

    /** Removes exactly the entry at position i. */
    method Remove(i: nat) returns (x: Entry)
      requires i < |items| && Placed(items) && HeapOrdered(items, |items|)
      modifies this, items`heapIndex
      ensures x == old(items)[i] && x.heapIndex == -1
      ensures multiset(items) == multiset(old(items)) - multiset{x} && x !in items
      ensures Placed(items) && HeapOrdered(items, |items|)
    {
      var n := |items| - 1;
      MoveLast(i);
      assert items[n..] == [items[n]];
      x := items[n];
      PopLast(items);
      items := items[..n];
      x.heapIndex := -1;
    }

    /** Everything Remove does before it drops the last slot. */
    method MoveLast(i: nat)
      requires i < |items| && Placed(items) && HeapOrdered(items, |items|)
      modifies this, items`heapIndex
      ensures Permutation(items, old(items)) && Placed(items) && HeapOrdered(items, |items| - 1)
      ensures items[|items| - 1..] == [old(items)[i]]
    {
      hide Permutation, Placed, OrderedButAt, OrderedButUp;
      SamePermutation(items);
      var n := |items| - 1;
      if n != i {
        ReplacedByLast(items, i);
        SwappedPermutation(items, i, n, items);
        PermutationMembers(Swapped(items, i, n), items);
        Swap(i, n);
        ghost var t := items;
        var moved := Down(i, n);
        PermutationTransitive(items, t, old(items));
        PermutationMembers(items, old(items));
        if !moved {
          ghost var u := items;
          Up(i, n);
          PermutationTransitive(items, u, old(items));
        }
      }
      PermutationLength(items, old(items));
    }
  }

  lemma SamePermutation(s: seq<Entry>)
    ensures Permutation(s, s)
  {
  }

  lemma PermutationTransitive(s: seq<Entry>, t: seq<Entry>, u: seq<Entry>)
    requires Permutation(s, t) && Permutation(t, u)
    ensures Permutation(s, u)
  {
  }

  lemma PermutationLength(s: seq<Entry>, t: seq<Entry>)
    requires Permutation(s, t)
    ensures |s| == |t|
  {
  }

  lemma SwappedTail(s: seq<Entry>, i: nat, j: nat, n: nat)
    requires i < n <= |s| && j < n
    ensures Swapped(s, i, j)[n..] == s[n..]
  {
  }

  lemma UpAtEnd(s: seq<Entry>, n: int, j: int)
    requires 0 <= j < n <= |s| && OrderedButUp(s, n, j)
    ensures j == 0 || InOrder(s, j) ==> HeapOrdered(s, n)
    ensures j > 0 ==> Parent(j) == (j - 1) / 2
  {
  }

  lemma DownAtEnd(s: seq<Entry>, n: int, i: int)
    requires 0 <= i < n <= |s| && OrderedButAt(s, n, i)
    requires 2 * i + 1 < n ==> s[2 * i + 1].priority <= s[i].priority
    requires 2 * i + 2 < n ==> s[2 * i + 2].priority <= s[i].priority
    ensures OrderedButUp(s, n, i)
    ensures i > 0 && InOrder(s, i) ==> HeapOrdered(s, n)
  {
    forall k | 1 <= k < n && Parent(k) == i ensures InOrder(s, k) { assert k == 2 * i + 1 || k == 2 * i + 2; }
  }

  lemma AppendedLast(s: seq<Entry>, x: Entry)
    requires HeapOrdered(s, |s|)
    ensures OrderedButUp(s + [x], |s| + 1, |s|)
  {
    forall k | 1 <= k < |s| ensures InOrder(s + [x], k) { assert InOrder(s, k); }
  }

  lemma PopLast(s: seq<Entry>)
    requires s != [] && HeapOrdered(s, |s| - 1)
    ensures HeapOrdered(s[..|s| - 1], |s| - 1)
    ensures multiset(s[..|s| - 1]) == multiset(s) - multiset{s[|s| - 1]}
  {
    var t := s[..|s| - 1];
    assert s == t + [s[|s| - 1]];
    forall k | 1 <= k < |t| ensures InOrder(t, k) { assert InOrder(s, k); }
  }

  lemma ReplacedByLast(s: seq<Entry>, i: nat)
    requires i < |s| - 1 && HeapOrdered(s, |s|)
    ensures OrderedButAt(Swapped(s, i, |s| - 1), |s| - 1, i)
  {
    var n, t := |s| - 1, Swapped(s, i, |s| - 1);
    forall k | 1 <= k < n && k != i && Parent(k) != i ensures InOrder(t, k) { assert InOrder(s, k); }
    forall k | 1 <= k < n && Parent(k) == i && i > 0 ensures t[Parent(i)].priority >= t[k].priority {
      assert InOrder(s, k) && InOrder(s, i);
    }
  }
}
