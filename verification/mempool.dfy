/** The priority and TTL mempools: a hash map, an indexed heap and a byte
    counter that stay in step. */
module Mempools {
  import opened Wrappers
  import opened Bytes
  import opened TxHeaps

  type Tx = seq<byte>

  datatype AddResult = Added | InvalidTx | TxTooLarge | TxAlreadyExists | ValidationFailed | MempoolFull

  // ----- byte totals

  function TotalBytes(s: seq<Entry>): nat {
    if s == [] then 0 else TotalBytes(s[..|s| - 1]) + |s[|s| - 1].tx|
  }

  lemma {:induction false} TotalBytesRemove(s: seq<Entry>, i: nat)
    requires i < |s|
    ensures TotalBytes(s) == TotalBytes(s[..i] + s[i + 1..]) + |s[i].tx|
  {
    var last := |s| - 1;
    if i < last {
      TotalBytesRemove(s[..last], i);
      assert (s[..i] + s[i + 1..])[..last - 1] == s[..last][..i] + s[..last][i + 1..];
    } else {
      assert s[..i] + s[i + 1..] == s[..last];
    }
  }

  lemma MultisetRemove(s: seq<Entry>, i: nat)
    requires i < |s|
    ensures multiset(s[..i] + s[i + 1..]) == multiset(s) - multiset{s[i]}
  {
    assert s == s[..i] + [s[i]] + s[i + 1..];
  }

  /** The total does not depend on the order. */
  lemma {:induction false} TotalBytesPermutation(s: seq<Entry>, t: seq<Entry>)
    requires multiset(s) == multiset(t)
    ensures TotalBytes(s) == TotalBytes(t)
    decreases |s|
  {
    assert |s| == |multiset(s)| && |t| == |multiset(t)|;
    if s != [] {
      var last := |s| - 1;
      assert s[last] in multiset(t);
      var i :| 0 <= i < |t| && t[i] == s[last];
      MultisetRemove(s, last);
      MultisetRemove(t, i);
      assert s[..last] + s[last + 1..] == s[..last];
      TotalBytesPermutation(s[..last], t[..i] + t[i + 1..]);
      TotalBytesRemove(t, i);
    }
  }

  lemma TotalBytesAdd(s: seq<Entry>, x: Entry, t: seq<Entry>)
    requires multiset(t) == multiset(s) + multiset{x}
    ensures TotalBytes(t) == TotalBytes(s) + |x.tx|
  {
    assert (s + [x])[..|s|] == s;
    TotalBytesPermutation(t, s + [x]);
  }

  lemma TotalBytesNone()
    ensures TotalBytes([]) == 0
  {
  }

  lemma TotalBytesSingle(x: Entry)
    ensures TotalBytes([x]) == |x.tx|
  {
    assert [x][..0] == [];
  }

  // ----- the map and the heap

  /** The map and the sequence hold the same transactions. */
  ghost predicate SameTxs(txs: map<Hash, Entry>, items: seq<Entry>) {
    && (forall k :: k in txs ==> txs[k] in items && txs[k].hash == k)
    && (forall e :: e in items ==> e.hash in txs && txs[e.hash] == e)
  }

  ghost predicate Distinct(items: seq<Entry>) {
    forall i, j :: 0 <= i < j < |items| ==> items[i] != items[j]
  }

  lemma {:induction false} SameCount(txs: map<Hash, Entry>, items: seq<Entry>)
    requires SameTxs(txs, items) && Distinct(items)
    ensures |txs| == |items|
    decreases |items|
  {
    if items == [] {
      assert txs == map[];
    } else {
      var x, init := items[|items| - 1], items[..|items| - 1];
      assert forall e :: e in items <==> e in init || e == x;
      assert x !in init;
      var rest := txs - {x.hash};
      assert SameTxs(rest, init);
      SameCount(rest, init);
      assert txs.Keys == rest.Keys + {x.hash};
    }
  }

  // ----- the object

  ghost function Named(hashes: seq<Hash>): set<Hash> {
    set h | h in hashes
  }

  lemma NamedNone()
    ensures Named([]) == {}
  {
  }

  lemma NamedAdd(hashes: seq<Hash>, h: Hash)
    ensures Named(hashes + [h]) == Named(hashes) + {h}
  {
  }

  /** Each eviction of a run was needed: before it, a limit stood in the way
      of the newcomer of txSize bytes. */
  ghost predicate EachNeeded(evicted: seq<Entry>, countFull: bool, bytes: int, txSize: int, maxBytes: int) {
    forall k :: 0 <= k < |evicted| ==>
      (k == 0 && countFull) || (maxBytes > 0 && bytes - TotalBytes(evicted[..k]) + txSize > maxBytes)
  }

  class Mempool {
    const maxTxs: int
    const maxBytes: int
    const maxTxSize: int
    const hashTx: Tx -> Hash
    var priorityFunc: Tx -> int
    var validator: Option<Tx -> bool>
    var txs: map<Hash, Entry>
    const heap: TxHeap
    var sizeBytes: int

    ghost predicate InStep()
      reads this, heap, heap.items
    {
      && Placed(heap.items) && HeapOrdered(heap.items, |heap.items|)
      && SameTxs(txs, heap.items)
      && sizeBytes == TotalBytes(heap.items)
    }

    ghost predicate WithinLimits()
      reads this, heap
    {
      && (maxTxs > 0 ==> |heap.items| <= maxTxs)
      && (maxBytes > 0 ==> sizeBytes <= maxBytes)
    }

    ghost predicate Valid()
      reads this, heap, heap.items
    {
      InStep() && WithinLimits()
    }

    constructor (maxTxs: int, maxBytes: int, maxTxSize: int, hashTx: Tx -> Hash, priorityFunc: Tx -> int)
      ensures Valid() && heap.items == [] && fresh(heap)
      ensures this.maxTxs == maxTxs && this.maxBytes == maxBytes && this.maxTxSize == maxTxSize
      ensures this.hashTx == hashTx && this.priorityFunc == priorityFunc && validator.None?
    {
      this.maxTxs, this.maxBytes, this.maxTxSize := maxTxs, maxBytes, maxTxSize;
      this.hashTx, this.priorityFunc, this.validator := hashTx, priorityFunc, None;
      txs, sizeBytes := map[], 0;
      heap := new TxHeap();
    }

    /** The root's priority is the maximum over the whole pool. */
    method HighestPriority() returns (p: int)
      requires Valid()
      ensures heap.items == [] ==> p == 0
      ensures heap.items != [] ==>
        (exists k :: k in txs && txs[k].priority == p) && (forall k :: k in txs ==> txs[k].priority <= p)
    {
      if |heap.items| == 0 { return 0; }
      p := heap.items[0].priority;
      assert heap.items[0] in heap.items;
      assert heap.items[0].hash in txs;
      forall k | k in txs ensures txs[k].priority <= p {
        var i :| 0 <= i < |heap.items| && heap.items[i] == txs[k];
        RootIsMax(heap.items, i);
      }
    }

    /** Takes out one entry, by its position. */
    method TakeOut(i: nat) returns (x: Entry)
      requires InStep() && i < |heap.items|
      modifies this`txs, this`sizeBytes, heap, heap.items`heapIndex
      ensures InStep() && x == old(heap.items)[i]
      ensures multiset(heap.items) == multiset(old(heap.items)) - multiset{x} && x !in heap.items
      ensures |heap.items| == |old(heap.items)| - 1
      ensures sizeBytes == old(sizeBytes) - |x.tx|
      ensures txs == old(txs) - {x.hash}
    {
      ghost var before := heap.items;
      x := heap.Remove(i);
      AfterRemoval(before, heap.items, x);
      txs := txs - {x.hash};
      sizeBytes := sizeBytes - |x.tx|;
    }

    /** The first position with the lowest priority. */
    method Lowest() returns (i: nat)
      requires heap.items != []
      ensures i < |heap.items|
      ensures forall j :: 0 <= j < |heap.items| ==> heap.items[i].priority <= heap.items[j].priority
      ensures forall j :: 0 <= j < i ==> heap.items[i].priority < heap.items[j].priority
    {
      i := 0;
      for j := 1 to |heap.items|
        invariant i < |heap.items| && i <= j
        invariant forall k :: 0 <= k < j ==> heap.items[i].priority <= heap.items[k].priority
        invariant forall k :: 0 <= k < i ==> heap.items[i].priority < heap.items[k].priority
      {
        if heap.items[j].priority < heap.items[i].priority { i := j; }
      }
    }

    /** Evicts one entry of lowest priority, and only for a newcomer that outranks it. */
    method EvictLowest(newPriority: int) returns (ok: bool, ghost victim: Option<Entry>)
      requires InStep()
      modifies this`txs, this`sizeBytes, heap, heap.items`heapIndex
      ensures InStep() && (ok <==> victim.Some?)
      ensures !ok ==> heap.items == old(heap.items) && txs == old(txs) && sizeBytes == old(sizeBytes)
      ensures !ok ==> forall e :: e in heap.items ==> newPriority <= e.priority
      ensures ok ==> Evicts(old(heap.items), heap.items, victim.value, newPriority)
      ensures ok ==> sizeBytes == old(sizeBytes) - |victim.value.tx|
    {
      if |heap.items| == 0 { return false, None; }
      var i := Lowest();
      assert heap.items[i] in heap.items;
      if newPriority <= heap.items[i].priority { return false, None; }
      ghost var before := heap.items;
      var x := TakeOut(i);
      AfterRemoval(before, heap.items, x);
      return true, Some(x);
    }

    method Insert(x: Entry)
      requires InStep() && x !in heap.items && x.hash !in txs
      modifies this`txs, this`sizeBytes, heap, heap.items`heapIndex, x`heapIndex
      ensures InStep() && multiset(heap.items) == multiset(old(heap.items)) + multiset{x}
      ensures |heap.items| == |old(heap.items)| + 1 && sizeBytes == old(sizeBytes) + |x.tx|
      ensures txs == old(txs)[x.hash := x]
    {
      ghost var before := heap.items;
      txs := txs[x.hash := x];
      heap.Push(x);
      sizeBytes := sizeBytes + |x.tx|;
      AfterInsertion(before, heap.items, x);
    }

    /** Makes room for a newcomer. On failure the evictions made so far stand. */
    method MakeRoom(priority: int, txSize: int) returns (ok: bool, ghost evicted: seq<Entry>)
      requires Valid() && txSize >= 0
      modifies this`txs, this`sizeBytes, heap, heap.items`heapIndex
      ensures Valid()
      ensures EvictedFor(old(heap.items), heap.items, evicted, priority)
      ensures EachNeeded(evicted, maxTxs > 0 && |old(heap.items)| >= maxTxs, old(sizeBytes), txSize, maxBytes)
      ensures ok ==> (maxTxs > 0 ==> |heap.items| < maxTxs) && (maxBytes > 0 ==> sizeBytes + txSize <= maxBytes)
      ensures !ok ==> forall e :: e in heap.items ==> priority <= e.priority
    {
      hide TotalBytes, Placed, HeapOrdered, SameTxs, InStep;
      TotalBytesNone();
      evicted := [];
      NothingEvicted(heap.items, priority);
      CountIs();
      ghost var full, bytes := maxTxs > 0 && |heap.items| >= maxTxs, sizeBytes;
      if maxTxs > 0 && |txs| >= maxTxs {
        ghost var v;
        ok, v := EvictLowest(priority);
        if !ok { return; }
        OneMoreEvicted(old(heap.items), old(heap.items), heap.items, evicted, v.value, priority);
        evicted := [v.value];
        TotalBytesSingle(v.value);
        assert [v.value][..0] == [];
      }
      while maxBytes > 0 && sizeBytes + txSize > maxBytes
        invariant Valid()
        invariant maxTxs > 0 ==> |heap.items| < maxTxs
        invariant EvictedFor(old(heap.items), heap.items, evicted, priority)
        invariant EachNeeded(evicted, full, bytes, txSize, maxBytes)
        invariant sizeBytes == bytes - TotalBytes(evicted)
        decreases |heap.items|
      {
        ghost var before := heap.items;
        assert forall k :: 0 <= k < |heap.items| ==> heap.items[k] in old(heap.items);
        ghost var v;
        ok, v := EvictLowest(priority);
        if !ok { return; }
        OneMoreEvicted(old(heap.items), before, heap.items, evicted, v.value, priority);
        OneMoreNeeded(evicted, v.value, full, bytes, txSize, maxBytes);
        evicted := evicted + [v.value];
      }
      ok := true;
    }

    ghost predicate IsNewcomer(x: Entry, tx: Tx, expiresAt: int)
      reads this, x
    {
      x.tx == tx && x.hash == hashTx(tx) && x.priority == priorityFunc(tx) && x.expiresAt == expiresAt
    }

    /** AddTx and AddTxWithTTL; a nil transaction is None, no validator refuses all. */
    method AddTx(tx: Option<Tx>, expiresAt: int) returns (r: AddResult, ghost evicted: seq<Entry>)
      requires Valid()
      modifies this`txs, this`sizeBytes, heap, heap.items`heapIndex
      ensures Valid()
      ensures var refused := Refusal(tx, maxTxSize, tx.Some? && hashTx(tx.value) in old(txs), validator);
        refused.Some? ==> r == refused.value && evicted == [] && heap.items == old(heap.items) && txs == old(txs)
      ensures var refused := Refusal(tx, maxTxSize, tx.Some? && hashTx(tx.value) in old(txs), validator);
        refused.None? ==> r == Added || r == MempoolFull
      ensures r == Added ==>
        && tx.Some? && validator.Some? && validator.value(tx.value) && (maxTxSize > 0 ==> |tx.value| <= maxTxSize)
        && hashTx(tx.value) !in old(txs) && hashTx(tx.value) in txs && txs[hashTx(tx.value)].tx == tx.value
      ensures r == InvalidTx <==> tx.None?
      ensures r == TxTooLarge <==> tx.Some? && 0 < maxTxSize < |tx.value|
      ensures r == TxAlreadyExists <==> tx.Some? && !(0 < maxTxSize < |tx.value|) && hashTx(tx.value) in old(txs)
      ensures r == ValidationFailed <==>
        && tx.Some? && !(0 < maxTxSize < |tx.value|) && hashTx(tx.value) !in old(txs)
        && !(validator.Some? && validator.value(tx.value))
      ensures r == MempoolFull ==>
        && EvictedFor(old(heap.items), heap.items, evicted, priorityFunc(tx.value))
        && forall e :: e in heap.items ==> priorityFunc(tx.value) <= e.priority
      ensures r == Added ==>
        exists x :: x in heap.items && IsNewcomer(x, tx.value, expiresAt) && Admits(old(heap.items), heap.items, evicted, x)
      ensures r == Added || r == MempoolFull ==>
        EachNeeded(evicted, maxTxs > 0 && |old(heap.items)| >= maxTxs, old(sizeBytes), |tx.value|, maxBytes)
    {
      hide TotalBytes, Placed, HeapOrdered, SameTxs, EachNeeded, EvictedFor;
      evicted := [];
      if tx.None? { return InvalidTx, []; }
      if maxTxSize > 0 && |tx.value| > maxTxSize { return TxTooLarge, []; }
      var hash := hashTx(tx.value);
      if hash in txs { return TxAlreadyExists, []; }
      if validator.None? || !validator.value(tx.value) { return ValidationFailed, []; }
      var priority := priorityFunc(tx.value);
      ghost var known := heap.items;
      StaysNew(hash);
      var ok;
      ok, evicted := MakeRoom(priority, |tx.value|);
      if !ok { return MempoolFull, evicted; }
      ghost var kept := heap.items;
      EvictedKeepsNew(known, kept, evicted, priority, hash);
      HashIsNew(hash);
      var x := new Entry(hash, tx.value, priority, expiresAt);
      assert forall k :: 0 <= k < |heap.items| ==> heap.items[k] in old(heap.items);
      Insert(x);
      AdmitsNew(known, kept, heap.items, evicted, x, priority);
      assert IsNewcomer(x, tx.value, expiresAt);
      return Added, evicted;
    }

    lemma StaysNew(hash: Hash)
      requires InStep() && hash !in txs
      ensures forall e :: e in heap.items ==> e.hash != hash
    {
    }

    lemma HashIsNew(hash: Hash)
      requires InStep() && forall e :: e in heap.items ==> e.hash != hash
      ensures hash !in txs
    {
    }

    /** Removes the named transactions and nothing else, whatever the order
        or repetitions in the list. */
    method RemoveTxs(hashes: seq<Hash>)
      requires Valid()
      modifies this`txs, this`sizeBytes, heap, heap.items`heapIndex
      ensures Valid()
      ensures txs == old(txs) - Named(hashes)
    {
      hide TotalBytes, Placed, HeapOrdered, SameTxs;
      for i := 0 to |hashes|
        invariant Valid() && txs == old(txs) - Named(hashes[..i])
        invariant forall k :: 0 <= k < |heap.items| ==> heap.items[k] in old(heap.items)
      {
        assert hashes[..i + 1] == hashes[..i] + [hashes[i]];
        NamedAdd(hashes[..i], hashes[i]);
        if hashes[i] in txs {
          RemoveNamed(hashes[i]);
        }
      }
      assert hashes[..|hashes|] == hashes;
    }

    /** The stored heap index leads to the named transaction. */
    method RemoveNamed(hash: Hash)
      requires Valid() && hash in txs
      modifies this`txs, this`sizeBytes, heap, heap.items`heapIndex
      ensures Valid() && txs == old(txs) - {hash}
      ensures forall k :: 0 <= k < |heap.items| ==> heap.items[k] in old(heap.items)
    {
      var mtx := txs[hash];
      assert mtx in heap.items;
      ghost var before := heap.items;
      var x := TakeOut(mtx.heapIndex);
      assert x == mtx;
      AfterRemoval(before, heap.items, x);
    }

    ghost function ExpiredAt(now: int): set<Hash>
      reads this, txs.Values
    {
      set h | h in txs && now > txs[h].expiresAt
    }

    /** Drops exactly the transactions whose time has passed. */
    method RemoveExpired(now: int) returns (n: nat)
      requires Valid()
      modifies this`txs, this`sizeBytes, heap, heap.items`heapIndex
      ensures Valid()
      ensures txs == old(txs) - old(ExpiredAt(now)) && n == |old(ExpiredAt(now))|
      ensures forall h :: h in txs <==> h in old(txs) && now <= old(txs[h].expiresAt)
    {
      hide TotalBytes, Placed, HeapOrdered, SameTxs;
      var expired := CollectExpired(now);
      RemoveTxs(expired);
      n := |expired|;
    }

    method CollectExpired(now: int) returns (expired: seq<Hash>)
      ensures Named(expired) == ExpiredAt(now) && |expired| == |ExpiredAt(now)|
    {
      hide Named;
      expired := [];
      var todo := txs.Keys;
      ghost var done: set<Hash> := {};
      NamedNone();
      while todo != {}
        invariant todo <= txs.Keys
        invariant Named(expired) == done && |expired| == |done|
        invariant forall h :: h in done <==> h in ExpiredAt(now) && h !in todo
        decreases |todo|
      {
        var h :| h in todo;
        if now > txs[h].expiresAt {
          NamedAdd(expired, h);
          expired, done := expired + [h], done + {h};
        }
        todo := todo - {h};
      }
      assert done == ExpiredAt(now);
    }

    /** The look-up in the map says whether the heap holds the transaction among
        those that a reap at this moment may return. */
    method HasTx(hash: Hash, now: int) returns (r: bool)
      requires Valid()
      ensures r <==> exists e :: e in Live(heap.items, Some(now)) && e.hash == hash
    {
      hide TotalBytes, Placed, HeapOrdered;
      r := hash in txs && !(now > txs[hash].expiresAt);
      if hash in txs { LiveMember(heap.items, Some(now), txs[hash]); }
      if e :| e in Live(heap.items, Some(now)) && e.hash == hash { LiveMember(heap.items, Some(now), e); }
    }

    method ExtendTTL(hash: Hash, extension: int) returns (r: bool)
      requires Valid()
      modifies txs.Values`expiresAt
      ensures Valid() && (r <==> hash in txs)
      ensures forall h :: h in txs ==> txs[h].expiresAt == old(txs[h].expiresAt) + (if h == hash then extension else 0)
    {
      if hash !in txs { return false; }
      txs[hash].expiresAt := txs[hash].expiresAt + extension;
      return true;
    }

    method CollectLive(now: Option<int>) returns (live: seq<Entry>)
      ensures live == Live(heap.items, now)
    {
      live := [];
      for i := 0 to |heap.items|
        invariant live == Live(heap.items[..i], now)
      {
        assert heap.items[..i + 1][..i] == heap.items[..i];
        if now.None? || !(now.value > heap.items[i].expiresAt) { live := live + [heap.items[i]]; }
      }
      assert heap.items[..|heap.items|] == heap.items;
    }

    /** The longest prefix that fits the byte budget of an arrangement of the
        pool, highest priority first; `now` is None for the priority mempool,
        which knows no expiry. Changes nothing. */
    method ReapTxs(budget: int, now: Option<int>) returns (result: seq<Tx>)
      ensures exists order ::
        && SortedByPriority(order) && Permutation(order, Live(heap.items, now))
        && LongestPrefix(order, if budget <= 0 then maxBytes else budget, result)
    {
      hide TotalBytes, Live, SortedByPriority;
      var limit := if budget <= 0 then maxBytes else budget;
      var live := CollectLive(now);
      var sorted := new Entry[|live|](i requires 0 <= i < |live| => live[i]);
      assert sorted[..] == live;
      SortByPriority(sorted);
      ghost var order := sorted[..];
      result := TakeWithin(sorted[..], limit);
      assert LongestPrefix(order, limit, result);
    }

    lemma CountIs()
      requires InStep()
      ensures |txs| == |heap.items|
    {
      SameCount(txs, heap.items);
    }
  }

  ghost function Live(items: seq<Entry>, now: Option<int>): seq<Entry>
    reads items
  {
    if items == [] then [] else
      var last := items[|items| - 1];
      Live(items[..|items| - 1], now) + (if now.None? || now.value <= last.expiresAt then [last] else [])
  }

  predicate SortedByPriority(s: seq<Entry>) {
    forall i, j :: 0 <= i < j < |s| ==> s[i].priority >= s[j].priority
  }

  /** No entry from position i on outranks one before i, and those are sorted. */
  ghost predicate SortedUpTo(s: seq<Entry>, i: nat) {
    forall k, l :: 0 <= k < i && k < l < |s| ==> s[k].priority >= s[l].priority
  }

  lemma {:induction false} LiveMember(items: seq<Entry>, now: Option<int>, e: Entry)
    ensures e in Live(items, now) <==> e in items && (now.None? || now.value <= e.expiresAt)
    decreases |items|
  {
    if items != [] {
      LiveMember(items[..|items| - 1], now, e);
      assert items == items[..|items| - 1] + [items[|items| - 1]];
    }
  }

  method Exchange(a: array<Entry>, i: nat, j: nat)
    requires i < j < a.Length
    modifies a
    ensures a[..] == Swapped(old(a[..]), i, j)
  {
    a[i], a[j] := a[j], a[i];
  }

  lemma ExchangeKeeps(s: seq<Entry>, i: nat, j: nat, t: seq<Entry>)
    requires i < j < |s| && SortedUpTo(s, i) && Permutation(s, t)
    ensures SortedUpTo(Swapped(s, i, j), i) && Permutation(Swapped(s, i, j), t)
  {
    SwappedPermutation(s, i, j, t);
  }

  /** The inner loop of the exchange sort: brings a highest priority to position i. */
  method PullMax(a: array<Entry>, i: nat, ghost was: seq<Entry>)
    requires i < a.Length && SortedUpTo(a[..], i) && Permutation(a[..], was)
    modifies a
    ensures SortedUpTo(a[..], i + 1) && Permutation(a[..], was)
  {
    hide Permutation;
    for j := i + 1 to a.Length
      invariant SortedUpTo(a[..], i) && Permutation(a[..], was)
      invariant forall l :: i < l < j ==> a[i].priority >= a[l].priority
    {
      if a[j].priority > a[i].priority {
        ExchangeKeeps(a[..], i, j, was);
        Exchange(a, i, j);
      }
    }
  }

  /** The exchange sort of ReapTxs. */
  method SortByPriority(a: array<Entry>)
    modifies a
    ensures SortedByPriority(a[..]) && Permutation(a[..], old(a[..]))
  {
    hide Permutation;
    SamePermutation(a[..]);
    for i := 0 to a.Length
      invariant SortedUpTo(a[..], i) && Permutation(a[..], old(a[..]))
    {
      PullMax(a, i, old(a[..]));
    }
  }

  /** The transactions of the longest prefix within the limit; no limit when it is 0 or less. */
  ghost predicate LongestPrefix(order: seq<Entry>, limit: int, result: seq<Tx>) {
    && |result| <= |order| && (forall i :: 0 <= i < |result| ==> result[i] == order[i].tx)
    && (limit > 0 ==> TotalBytes(order[..|result|]) <= limit)
    && (|result| < |order| ==> limit > 0 && TotalBytes(order[..|result| + 1]) > limit)
  }

  method TakeWithin(order: seq<Entry>, limit: int) returns (result: seq<Tx>)
    ensures LongestPrefix(order, limit, result)
  {
    result := [];
    var total := 0;
    for i := 0 to |order|
      invariant |result| == i && forall k :: 0 <= k < i ==> result[k] == order[k].tx
      invariant total == TotalBytes(order[..i]) && (limit > 0 ==> total <= limit)
    {
      assert order[..i + 1][..i] == order[..i];
      if limit > 0 && total + |order[i].tx| > limit { return; }
      result := result + [order[i].tx];
      total := total + |order[i].tx|;
    }
  }

  /** The newcomer's checks in order: present, not oversized, new, and valid. */
  function Refusal(m: Option<Tx>, maxTxSize: int, known: bool, validator: Option<Tx -> bool>): Option<AddResult> {
    if m.None? then Some(InvalidTx)
    else if maxTxSize > 0 && |m.value| > maxTxSize then Some(TxTooLarge)
    else if known then Some(TxAlreadyExists)
    else if validator.None? || !validator.value(m.value) then Some(ValidationFailed)
    else None
  }

  /** v, of lowest priority and outranked by the newcomer, is gone from s. */
  ghost predicate Evicts(s: seq<Entry>, t: seq<Entry>, v: Entry, newPriority: int) {
    && v in s && multiset(t) == multiset(s) - multiset{v} && |t| == |s| - 1
    && (forall e :: e in t ==> e in s && e != v)
    && v.priority < newPriority && forall e :: e in s ==> v.priority <= e.priority
  }

  /** Whatever left s is in evicted, was outranked by the newcomer, and does
      not outrank anything that stayed. */
  ghost predicate EvictedFor(s: seq<Entry>, t: seq<Entry>, evicted: seq<Entry>, priority: int) {
    && multiset(t) + multiset(evicted) == multiset(s) && |t| + |evicted| == |s|
    && (forall e :: e in t ==> e in s)
    && (forall e :: e in evicted ==> e in s && e.priority < priority)
    && (forall e, r :: e in evicted && r in t ==> e.priority <= r.priority)
  }

  /** The newcomer x is in, what left is in evicted and was outranked by x. */
  ghost predicate Admits(s: seq<Entry>, t: seq<Entry>, evicted: seq<Entry>, x: Entry) {
    && multiset(t) + multiset(evicted) == multiset(s) + multiset{x}
    && (forall e :: e in evicted ==> e in s && e.priority < x.priority)
    && (forall e, r :: e in evicted && r in t ==> e.priority <= r.priority)
  }

  lemma AdmitsNew(s: seq<Entry>, t: seq<Entry>, u: seq<Entry>, evicted: seq<Entry>, x: Entry, priority: int)
    requires EvictedFor(s, t, evicted, priority) && x.priority == priority
    requires multiset(u) == multiset(t) + multiset{x}
    ensures x in u && Admits(s, u, evicted, x)
  {
    AfterInsertion(t, u, x);
  }

  lemma EvictedKeepsNew(s: seq<Entry>, t: seq<Entry>, evicted: seq<Entry>, priority: int, hash: Hash)
    requires EvictedFor(s, t, evicted, priority) && forall e :: e in s ==> e.hash != hash
    ensures forall e :: e in t ==> e.hash != hash && e in s
  {
  }

  lemma NothingEvicted(s: seq<Entry>, priority: int)
    ensures EvictedFor(s, s, [], priority)
  {
  }

  lemma OneMoreEvicted(s: seq<Entry>, t: seq<Entry>, u: seq<Entry>, evicted: seq<Entry>, v: Entry, priority: int)
    requires EvictedFor(s, t, evicted, priority) && Evicts(t, u, v, priority)
    ensures EvictedFor(s, u, evicted + [v], priority)
  {
    assert v in multiset(t);
    assert multiset(u) + multiset(evicted + [v]) == multiset(s);
  }

  lemma OneMoreNeeded(evicted: seq<Entry>, v: Entry, full: bool, bytes: int, txSize: int, maxBytes: int)
    requires EachNeeded(evicted, full, bytes, txSize, maxBytes)
    requires maxBytes > 0 && bytes - TotalBytes(evicted) + txSize > maxBytes
    ensures EachNeeded(evicted + [v], full, bytes, txSize, maxBytes)
    ensures TotalBytes(evicted + [v]) == TotalBytes(evicted) + |v.tx|
  {
    var more := evicted + [v];
    assert more[..|evicted|] == evicted;
    forall k | 0 <= k < |more|
      ensures (k == 0 && full) || (maxBytes > 0 && bytes - TotalBytes(more[..k]) + txSize > maxBytes)
    {
      if k < |evicted| { assert more[..k] == evicted[..k]; }
    }
  }

  lemma AfterInsertion(s: seq<Entry>, t: seq<Entry>, x: Entry)
    requires multiset(t) == multiset(s) + multiset{x}
    ensures TotalBytes(t) == TotalBytes(s) + |x.tx| && |t| == |s| + 1
    ensures forall e :: e in t <==> e in s || e == x
  {
    TotalBytesAdd(s, x, t);
    assert |multiset(s)| == |s| && |multiset(t)| == |t|;
    forall e ensures e in t <==> e in s || e == x {
      assert e in t <==> e in multiset(t);
      assert e in s <==> e in multiset(s);
    }
  }

  lemma AfterRemoval(s: seq<Entry>, t: seq<Entry>, x: Entry)
    requires x in s && multiset(t) == multiset(s) - multiset{x} && x !in t
    ensures TotalBytes(t) == TotalBytes(s) - |x.tx| && |t| == |s| - 1
    ensures forall e :: e in t <==> e in s && e != x
  {
    assert x in multiset(s);
    assert multiset(s) == multiset(t) + multiset{x};
    TotalBytesAdd(t, x, s);
    assert |multiset(s)| == |s| && |multiset(t)| == |t|;
    forall e ensures e in t <==> e in s && e != x {
      assert e in t <==> e in multiset(t);
      assert e in s <==> e in multiset(s);
    }
  }
}
