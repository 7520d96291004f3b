/**
  The BadgerDB block store. It writes the keys and values of the LevelDB store;
  what differs is pruning, which collects first and deletes afterwards.
*/
module BadgerStore {
  import opened Wrappers
  import opened Bytes
  import opened Pruning
  import opened MemoryStore
  import opened LevelDBStore

  datatype DeleteEntry = DeleteEntry(heightKey: seq<byte>, blockKey: seq<byte>)

  function Ops(es: seq<DeleteEntry>): seq<Op> {
    if es == [] then []
    else Ops(es[..|es| - 1]) + [Delete(es[|es| - 1].heightKey), Delete(es[|es| - 1].blockKey)]
  }

  lemma {:induction false} OpsConcat(a: seq<DeleteEntry>, b: seq<DeleteEntry>)
    ensures Ops(a + b) == Ops(a) + Ops(b)
  {
    if b == [] {
      assert a + b == a;
    } else {
      assert (a + b)[..|a + b| - 1] == a + b[..|b| - 1];
      OpsConcat(a, b[..|b| - 1]);
    }
  }

  lemma {:induction false} BatchConcat(d: DB, a: seq<Op>, b: seq<Op>)
    ensures ApplyBatch(d, a + b) == ApplyBatch(ApplyBatch(d, a), b)
  {
    if b == [] {
      assert a + b == a;
    } else {
      assert (a + b)[..|a + b| - 1] == a + b[..|b| - 1];
      BatchConcat(d, a, b[..|b| - 1]);
    }
  }

  /** Applied to d0, these deletions remove exactly what is removable below some cut. */
  ghost predicate Reached(m: Store, d0: DB, before: int, ops: seq<Op>)
    requires HeightsMatch(d0, m)
  {
    exists cut ::
      && m.base <= cut <= before
      && ApplyBatch(d0, ops) == d0 - GoneKeys(m, Removable(m, m.base, cut))
  }

  /** However many of the entries are deleted, in order, that is so. */
  ghost predicate Milestones(m: Store, d0: DB, before: int, es: seq<DeleteEntry>)
    requires HeightsMatch(d0, m)
  {
    forall k :: 0 <= k <= |es| ==> Reached(m, d0, before, Ops(es[..k]))
  }

  lemma PruneAtReached(m: Store, d0: DB, ops: seq<Op>, cut: int, before: int, count: int, newBase: int)
    requires HeightsMatch(d0, m) && PruneAt(m, d0, d0, ops, cut, before, count, newBase)
    ensures Reached(m, d0, before, ops)
  {
    hide GoneKeys, Removable, ApplyBatch;
  }

  lemma CutInRange(m: Store, d0: DB, ops: seq<Op>, cut: int, before: int, count: int, newBase: int)
    requires HeightsMatch(d0, m) && PruneAt(m, d0, d0, ops, cut, before, count, newBase)
    ensures cut <= before
  {
    hide GoneKeys, Removable, ApplyBatch;
  }

  lemma NextMilestone(m: Store, d0: DB, before: int, es: seq<DeleteEntry>, e: DeleteEntry)
    requires HeightsMatch(d0, m) && Milestones(m, d0, before, es) && Reached(m, d0, before, Ops(es + [e]))
    ensures Milestones(m, d0, before, es + [e])
  {
    hide Reached, Ops;
    forall k | 0 <= k <= |es + [e]| ensures Reached(m, d0, before, Ops((es + [e])[..k])) {
      if k <= |es| {
        assert (es + [e])[..k] == es[..k];
      } else {
        assert (es + [e])[..k] == es + [e];
      }
    }
  }

  lemma ReachedIsMoment(m: Store, d0: DB, before: int, d: DB, ops: seq<Op>)
    requires Represents(d0, m) && HeightsMatch(d0, m) && Indexed(m)
    requires Reached(m, d0, before, ops) && d == ApplyBatch(d0, ops)
    ensures PruneMoment(m, before, d)
  {
    hide Represents, Indexed, PruneMoment, GoneKeys, LowestKept;
    var cut :| m.base <= cut <= before && ApplyBatch(d0, ops) == d0 - GoneKeys(m, Removable(m, m.base, cut));
    var newBase := if LowestKept(m, m.base, cut) < cut then LowestKept(m, m.base, cut) else before;
    assert ApplyBatch(d, []) == d;
    WrittenIsMoment(m, d0, d, cut, before, |Removable(m, m.base, cut)|, newBase);
  }

  /** A prefix iterator, from `start` on: the keys in order. */
  method SeekPrefix(d: DB, prefix: seq<byte>, start: seq<byte>) returns (keys: seq<seq<byte>>)
    ensures forall k :: k in keys <==> k in d && prefix <= k && LexLeq(start, k)
    ensures forall i, j :: 0 <= i < j < |keys| ==> LexLess(keys[i], keys[j])
  {
    keys := InKeyOrder(set k | k in d && prefix <= k && LexLeq(start, k));
  }

  /** The keys the iteration visits before it breaks off at the end key. */
  method Visited(d: DB, base: int, before: int) returns (keys: seq<seq<byte>>)
    requires IsHeight(base) && IsHeight(before)
    ensures forall k :: k in keys <==> k in d && LexLeq(HeightKey(base), k) && LexLess(k, HeightKey(before))
    ensures forall i, j :: 0 <= i < j < |keys| ==> LexLess(keys[i], keys[j])
  {
    hide LexLess, LexLeq;
    var end := HeightKey(before);
    var all := SeekPrefix(d, PREFIX_HEIGHT, HeightKey(base));
    var n := 0;
    while n < |all|
      invariant n <= |all|
      invariant forall i :: 0 <= i < n ==> LexLess(all[i], end)
    {
      var c := CompareKeys(all[n], end);
      if c >= 0 { break; }
      n := n + 1;
    }
    keys := all[..n];
    forall k | k in d && LexLeq(HeightKey(base), k) && LexLess(k, end) ensures k in keys {
      BetweenSharesPrefix(PREFIX_HEIGHT, EncodeInt64(base), EncodeInt64(before), k);
      var i :| 0 <= i < |all| && all[i] == k;
      if i >= n { NotBelow(all, n, i, end); }
    }
  }

  lemma NotBelow(all: seq<seq<byte>>, n: nat, i: nat, end: seq<byte>)
    requires n <= i < |all| && forall i, j :: 0 <= i < j < |all| ==> LexLess(all[i], all[j])
    requires !LexLess(all[n], end)
    ensures !LexLess(all[i], end)
  {
    if n < i && LexLess(all[i], end) { LexTransitive(all[n], all[i], end); }
  }

  /** The entries of the removable blocks in [lo, hi), in ascending order. */
  ghost function Entries(m: Store, lo: int, hi: int): seq<DeleteEntry>
    decreases hi - lo
  {
    if hi <= lo then []
    else
      var h := hi - 1;
      Entries(m, lo, h) +
      if h in m.blocks && IsHeight(h) && !Protected(m.cfg, h, m.height)
      then [DeleteEntry(HeightKey(h), BlockKey(m.blocks[h].hash))] else []
  }

  lemma {:induction false} EntriesGap(m: Store, lo: int, cut: int, h: int)
    requires lo <= cut <= h && forall g :: cut <= g < h ==> g !in m.blocks
    ensures Entries(m, lo, h) == Entries(m, lo, cut)
    decreases h - cut
  {
    if cut < h { EntriesGap(m, lo, cut, h - 1); }
  }

  /** Visiting h, with nothing stored between cut and h. */
  lemma EntriesVisit(m: Store, lo: int, cut: int, h: int)
    requires lo <= cut <= h && (forall g :: cut <= g < h ==> g !in m.blocks) && h in m.blocks && IsHeight(h)
    ensures Entries(m, lo, h + 1) == Entries(m, lo, cut) +
      if Protected(m.cfg, h, m.height) then [] else [DeleteEntry(HeightKey(h), BlockKey(m.blocks[h].hash))]
  {
    EntriesGap(m, lo, cut, h);
  }

  lemma EntriesNone(m: Store, lo: int)
    ensures Entries(m, lo, lo) == []
  {
  }

  method VisitedHeights(d: DB, base: int, before: int, ghost m: Store) returns (keys: seq<seq<byte>>)
    requires HeightsMatch(d, m) && IsHeight(base) && IsHeight(before)
    ensures ScansHeights(m, keys, base, before)
  {
    hide HeightKey, HeightsMatch, ScansHeights, LexLess, LexLeq;
    keys := Visited(d, base, before);
    ScanIsHeights(d, m, keys, base, before);
  }

  /** The read transaction on a database that represents m: what to delete, in
      ascending order, and the new base. */
  method Collect(d: DB, cfg: Option<PruneConfig>, height: int, base: int, before: int, ghost m: Store)
    returns (es: seq<DeleteEntry>, newBase: int)
    requires HeightsMatch(d, m) && Indexed(m) && m.base == base && m.height == height && m.cfg == cfg
    requires IsHeight(base) && IsHeight(before) && base < before
    ensures es == Entries(m, base, before) && newBase == LowestKept(m, base, before)
    ensures PruneAt(m, d, d, Ops(es), before, before, |es|, newBase)
    ensures Milestones(m, d, before, es)
  {
    hide *;
    var keys := VisitedHeights(d, base, before, m);
    es, newBase := [], before;
    ghost var cut := base;
    StartPrune(d, m, before);
    NoOps();
    PruneAtReached(m, d, [], cut, before, 0, before);
    FirstMilestone(m, d, before);
    EntriesNone(m, base);
    for i := 0 to |keys|
      invariant PruneAt(m, d, d, Ops(es), cut, before, |es|, newBase)
      invariant cut == if i == 0 then base else KeyHeight(keys[i - 1]) + 1
      invariant Milestones(m, d, before, es)
      invariant base <= cut && es == Entries(m, base, cut)
    {
      var h := KeyHeight(keys[i]);
      NoneBetween(m, keys, base, before, i, cut);
      EntriesVisit(m, base, cut, h);
      HashOnDisk(d, m, h);
      if Protected(cfg, h, height) {
        VisitKept(m, d, d, Ops(es), cut, before, |es|, newBase, h);
        assert es + [] == es;
        if h < newBase { newBase := h; }
      } else {
        var e := DeleteEntry(keys[i], BlockKey(d[keys[i]]));
        VisitRemoved(m, d, d, Ops(es), cut, before, |es|, newBase, h);
        OpsAppend(es, e);
        PruneAtReached(m, d, Ops(es + [e]), h + 1, before, |es| + 1, newBase);
        NextMilestone(m, d, before, es, e);
        es := es + [e];
      }
      cut := h + 1;
    }
    NoneBetween(m, keys, base, before, |keys|, cut);
    CutInRange(m, d, Ops(es), cut, before, |es|, newBase);
    EntriesGap(m, base, cut, before);
    VisitedAll(m, d, d, Ops(es), cut, before, |es|, newBase);
  }

  class BadgerDBBlockStore {
    const db: Database
    var height: int
    var base: int
    var pruneCfg: Option<PruneConfig>
    ghost var model: Store

    /** The store answers as the in-memory store `model` does. */
    ghost predicate Valid()
      reads this, db
    {
      DiskRepresents(Disk(db.data, height, base), model) && WellFormed(model) && model.cfg == pruneCfg
    }

    constructor Open(db: Database, cfg: Option<PruneConfig>, ghost m: Store)
      requires Represents(db.data, m) && WellFormed(m) && m.cfg == cfg
      ensures Valid() && this.db == db && model == m
    {
      this.db := db;
      height := MetaHeight(db.data);
      base := MetaBase(db.data);
      pruneCfg := cfg;
      model := m;
    }

    /** Gives the in-memory store's answer and new state, and every database
        state it passes through is a prune moment. */
    method PruneBlocks(before: int) returns (r: PruneOutcome)
      requires Valid()
      modifies this, db
      ensures Valid() && (model, r) == Prune(old(model), before)
      ensures NewMoments(old(model), before, old(db.history), db.history)
      ensures ForeignKept(old(db.data), db.data)
    {
      hide Represents, Removable, LowestKept, Without, Indexed, PruneMoment, BaseBelow, ApplyBatch, EncodeInt64, Ops, Milestones, PruneAt, HeightsMatch, Entries;
      if before <= 0 { return InvalidPruneHeight; }
      if before > height { return PruneHeightTooHigh; }
      if base >= before { return Pruned(0, base); }
      ghost var m, d0 := model, db.data;
      RepresentsParts(d0, m);
      var es, newBase := Collect(db.data, pruneCfg, height, base, before, m);
      DeleteAll(es, before, newBase);
      FinishPrune(db.data, m, before, newBase);
      if newBase > base {
        db.Write([Put(KEY_META_BASE, EncodeInt64(newBase))]);
        base := newBase;
        FinishedIsMoment(m, before, db.data);
      }
      model := Prune(m, before).0;
      PruneKeepsWellFormed(m, before);
      PruneLeaves(m, before);
      return Pruned(|es|, base);
    }

    /** The write batches: a thousand entries each. */
    method DeleteAll(es: seq<DeleteEntry>, ghost before: int, ghost newBase: int)
      requires Represents(db.data, model) && HeightsMatch(db.data, model) && Indexed(model)
      requires PruneAt(model, db.data, db.data, Ops(es), before, before, |es|, newBase)
      requires Milestones(model, db.data, before, es)
      modifies db
      ensures Represents(db.data, Without(model, Removable(model, model.base, before)))
      ensures |es| == |Removable(model, model.base, before)|
      ensures NewMoments(model, before, old(db.history), db.history)
      ensures ForeignKept(old(db.data), db.data)
    {
      hide *;
      ghost var m, d0 := model, db.data;
      NoNewMoments(m, before, db.history);
      NoOps();
      EmptyBatch(d0);
      BatchIsPositive();
      assert es[..0] == [];
      var i := 0;
      while i < |es|
        invariant 0 <= i <= |es|
        invariant db.data == ApplyBatch(d0, Ops(es[..i]))
        invariant NewMoments(m, before, old(db.history), db.history)
        decreases |es| - i
      {
        var end := if i + MAX_BATCH_SIZE > |es| then |es| else i + MAX_BATCH_SIZE;
        ghost var past := db.history;
        OpsConcat(es[..i], es[i..end]);
        BatchConcat(d0, Ops(es[..i]), Ops(es[i..end]));
        assert es[..i] + es[i..end] == es[..end];
        db.Write(Ops(es[i..end]));
        MilestoneAt(m, d0, before, es, end);
        ReachedIsMoment(m, d0, before, db.data, Ops(es[..end]));
        MomentAdded(m, before, old(db.history), past, db.data);
        i := end;
      }
      assert es[..|es|] == es;
      AllWritten(m, d0, db.data, Ops(es), before, |es|, newBase);
      WrittenIsMoment(m, d0, db.data, before, before, |es|, newBase);
    }
  }

  lemma BatchIsPositive()
    ensures MAX_BATCH_SIZE > 0
  {
  }

  lemma NoOps()
    ensures Ops([]) == []
  {
  }

  lemma EmptyBatch(d: DB)
    ensures ApplyBatch(d, []) == d
  {
  }

  lemma OpsAppend(es: seq<DeleteEntry>, e: DeleteEntry)
    ensures Ops(es + [e]) == Ops(es) + [Delete(e.heightKey), Delete(e.blockKey)]
  {
    assert (es + [e])[..|es|] == es;
  }

  lemma FirstMilestone(m: Store, d0: DB, before: int)
    requires HeightsMatch(d0, m) && Reached(m, d0, before, [])
    ensures Milestones(m, d0, before, [])
  {
    hide Reached;
    var none: seq<DeleteEntry> := [];
    assert none[..0] == [];
  }

  lemma MilestoneAt(m: Store, d0: DB, before: int, es: seq<DeleteEntry>, k: nat)
    requires HeightsMatch(d0, m) && Milestones(m, d0, before, es) && k <= |es|
    ensures Reached(m, d0, before, Ops(es[..k]))
  {
    hide Reached, Ops;
  }

  lemma AllWritten(m: Store, d0: DB, d: DB, ops: seq<Op>, before: int, count: int, newBase: int)
    requires HeightsMatch(d0, m) && PruneAt(m, d0, d0, ops, before, before, count, newBase) && d == ApplyBatch(d0, ops)
    ensures PruneAt(m, d0, d, [], before, before, count, newBase)
  {
    hide GoneKeys, Removable, LowestKept;
    EmptyBatch(d);
  }
}
