/** Which blocks pruning keeps. */
module Pruning {
  import opened Wrappers

  datatype PruneStrategy = PruneNothing | PruneEverything | PruneDefault | PruneCustom

  datatype PruneConfig = PruneConfig(strategy: PruneStrategy, keepRecent: int, keepEvery: int)

  /** `ShouldKeep` on a possibly nil configuration. */
  predicate ShouldKeep(cfg: Option<PruneConfig>, height: int, currentHeight: int) {
    || cfg.None?
    || cfg.value.strategy == PruneNothing
    || (cfg.value.keepRecent > 0 && height > currentHeight - cfg.value.keepRecent)
    || (cfg.value.strategy == PruneDefault && cfg.value.keepEvery > 0 && height % cfg.value.keepEvery == 0)
  }

  /** What Prune asks: a missing configuration protects nothing. */
  predicate Protected(cfg: Option<PruneConfig>, height: int, currentHeight: int) {
    cfg.Some? && ShouldKeep(cfg, height, currentHeight)
  }

  /** The height below which blocks may be pruned, or 0. */
  function CalculatePruneTarget(cfg: Option<PruneConfig>, currentHeight: int): (target: int)
    ensures target >= 0
    ensures target > 0 <==> cfg.Some? && !cfg.value.strategy.PruneNothing? && cfg.value.keepRecent < currentHeight
    ensures target > 0 ==> target == currentHeight - cfg.value.keepRecent
  {
    if cfg.None? || cfg.value.strategy == PruneNothing then 0
    else if currentHeight - cfg.value.keepRecent < 1 then 0
    else currentHeight - cfg.value.keepRecent
  }
}

/** The in-memory block store, as values and as an object. */
module MemoryStore {
  import opened Int64
  import opened Wrappers
  import opened Bytes
  import opened Pruning

  type Hash = seq<byte>

  datatype Entry = Entry(hash: Hash, data: seq<byte>)

  datatype Store = Store(blocks: map<int, Entry>, byHash: map<Hash, int>, height: int, base: int,
                         cfg: Option<PruneConfig>)

  datatype PruneOutcome = Pruned(count: int, newBase: int) | InvalidPruneHeight | PruneHeightTooHigh

  function Empty(cfg: Option<PruneConfig>): Store {
    Store(map[], map[], 0, 0, cfg)
  }

  // ----- the operations on values

  predicate CanSave(s: Store, height: int, hash: Hash) {
    height !in s.blocks && hash !in s.byHash
  }

  function Save(s: Store, height: int, hash: Hash, data: seq<byte>): Store {
    if !CanSave(s, height, hash) then s else
      s.(blocks := s.blocks[height := Entry(hash, data)],
         byHash := s.byHash[hash := height],
         base := if s.base == 0 || height < s.base then height else s.base,
         height := if height > s.height then height else s.height)
  }

  function Load(s: Store, height: int): Option<Entry> {
    if height in s.blocks then Some(s.blocks[height]) else None
  }

  function LoadByHash(s: Store, hash: Hash): Option<(int, seq<byte>)> {
    if hash in s.byHash && s.byHash[hash] in s.blocks
    then Some((s.byHash[hash], s.blocks[s.byHash[hash]].data))
    else None
  }

  /** The stored heights in [lo, hi) that pruning may delete. */
  function Removable(s: Store, lo: int, hi: int): set<int> {
    set h | h in s.blocks && lo <= h < hi && !Protected(s.cfg, h, s.height)
  }

  /** s without the blocks at the heights in gone. */
  function Without(s: Store, gone: set<int>): Store {
    s.(blocks := s.blocks - gone,
       byHash := map hash | hash in s.byHash && s.byHash[hash] !in gone :: s.byHash[hash])
  }

  /** The lowest stored and protected height in [lo, hi), or hi. */
  function LowestKept(s: Store, lo: int, hi: int): (b: int)
    ensures lo <= hi ==> lo <= b <= hi
    decreases hi - lo
  {
    if lo >= hi then hi
    else if lo in s.blocks && Protected(s.cfg, lo, s.height) then lo
    else LowestKept(s, lo + 1, hi)
  }

  function Prune(s: Store, before: int): (Store, PruneOutcome) {
    if before <= 0 then (s, InvalidPruneHeight)
    else if before > s.height then (s, PruneHeightTooHigh)
    else if s.base >= before then (s, Pruned(0, s.base))
    else
      var gone, newBase := Removable(s, s.base, before), LowestKept(s, s.base, before);
      (Without(s, gone).(base := newBase), Pruned(|gone|, newBase))
  }

  // ----- what every run keeps

  /** The two maps describe the same blocks. */
  ghost predicate Indexed(s: Store) {
    && (forall h :: h in s.blocks ==> s.blocks[h].hash in s.byHash && s.byHash[s.blocks[h].hash] == h)
    && (forall x :: x in s.byHash ==> s.byHash[x] in s.blocks && s.blocks[s.byHash[x]].hash == x)
  }

  /** Height is the greatest stored height, or 0 in an empty store. */
  ghost predicate Bounded(s: Store) {
    && 0 <= s.base && 0 <= s.height <= MAX_INT64
    && (forall h :: h in s.blocks ==> 0 <= h <= s.height)
    && (s.blocks != map[] ==> s.height in s.blocks)
    && (s.blocks == map[] ==> s.height == 0)
  }

  /** Base is set once a block is stored, and no stored block lies below it. */
  ghost predicate BaseBelow(s: Store) {
    && (forall h :: h in s.blocks ==> s.base <= h)
    && (s.blocks != map[] ==> s.base > 0)
  }

  ghost predicate WellFormed(s: Store) {
    Indexed(s) && Bounded(s)
  }

  lemma EmptyWellFormed(cfg: Option<PruneConfig>)
    ensures WellFormed(Empty(cfg)) && BaseBelow(Empty(cfg))
  {
  }

  lemma SaveKeepsWellFormed(s: Store, height: int, hash: Hash, data: seq<byte>)
    requires WellFormed(s) && 0 <= height <= MAX_INT64
    ensures WellFormed(Save(s, height, hash, data))
  {
    var t := Save(s, height, hash, data);
    if CanSave(s, height, hash) {
      assert height in t.blocks;
      if s.blocks != map[] { assert s.height in t.blocks; }
    }
  }

  /** A save keeps Base below everything stored exactly when it is not for height 0. */
  lemma SaveBaseExact(s: Store, height: int, hash: Hash, data: seq<byte>)
    requires WellFormed(s) && BaseBelow(s) && CanSave(s, height, hash) && 0 <= height <= MAX_INT64
    ensures BaseBelow(Save(s, height, hash, data)) <==> height >= 1
  {
    var t := Save(s, height, hash, data);
    assert height in t.blocks;
    if height >= 1 {
      forall h | h in t.blocks ensures t.base <= h { assert h == height || h in s.blocks; }
    }
  }

  /** After a save at height 0, whichever block is saved next overtakes it:
      Base then lies above a stored height. */
  lemma GenesisIsOvertaken(s: Store, genesis: Hash, height: int, hash: Hash)
    requires WellFormed(s) && BaseBelow(s) && CanSave(s, 0, genesis)
    requires CanSave(Save(s, 0, genesis, []), height, hash) && 0 <= height <= MAX_INT64
    ensures var t := Save(Save(s, 0, genesis, []), height, hash, []);
      0 in t.blocks && t.base == height > 0
  {
    var g := Save(s, 0, genesis, []);
    assert g.base == 0 && 0 in g.blocks;
  }

  lemma {:induction false} LowestKeptIs(s: Store, lo: int, hi: int)
    requires lo <= hi
    ensures var b := LowestKept(s, lo, hi);
      && (forall h :: lo <= h < b && h in s.blocks ==> !Protected(s.cfg, h, s.height))
      && (b < hi ==> b in s.blocks && Protected(s.cfg, b, s.height))
    decreases hi - lo
  {
    if lo < hi { LowestKeptIs(s, lo + 1, hi); }
  }

  lemma WithoutKeepsIndexed(s: Store, gone: set<int>)
    requires Indexed(s)
    ensures Indexed(Without(s, gone))
    ensures forall x :: x in Without(s, gone).byHash <==> x in s.byHash && s.byHash[x] !in gone
  {
  }

  /** Deleting removable blocks below some cut, base untouched, is still a
      well-formed store: the states a crash can leave behind. */
  lemma PartialPruneWellFormed(s: Store, cut: int)
    requires WellFormed(s) && s.base <= cut <= s.height && s.blocks != map[]
    ensures WellFormed(Without(s, Removable(s, s.base, cut)))
    ensures BaseBelow(s) ==> BaseBelow(Without(s, Removable(s, s.base, cut)))
  {
    WithoutKeepsIndexed(s, Removable(s, s.base, cut));
    assert s.height in Without(s, Removable(s, s.base, cut)).blocks;
  }

  lemma PruneKeepsWellFormed(s: Store, before: int)
    requires WellFormed(s)
    ensures WellFormed(Prune(s, before).0)
    ensures BaseBelow(s) ==> BaseBelow(Prune(s, before).0)
  {
    if 0 < before <= s.height && s.base < before {
      assert s.blocks != map[];
      PartialPruneWellFormed(s, before);
      LowestKeptIs(s, s.base, before);
    }
  }

  // ----- retention and composition of pruning

  lemma {:induction false} LowestKeptSplits(s: Store, lo: int, mid: int, hi: int)
    requires lo <= mid <= hi
    ensures LowestKept(s, lo, hi) == if LowestKept(s, lo, mid) < mid then LowestKept(s, lo, mid) else LowestKept(s, mid, hi)
    decreases mid - lo
  {
    if lo < mid { LowestKeptSplits(s, lo + 1, mid, hi); }
  }

  lemma {:induction false} LowestKeptIgnoresRemovable(s: Store, gone: set<int>, lo: int, hi: int)
    requires forall h :: h in gone ==> !Protected(s.cfg, h, s.height)
    ensures LowestKept(Without(s, gone), lo, hi) == LowestKept(s, lo, hi)
    decreases hi - lo
  {
    if lo < hi { LowestKeptIgnoresRemovable(s, gone, lo + 1, hi); }
  }

  lemma LowestKeptSkips(s: Store, a: int, b: int)
    requires s.base < a <= b
    ensures LowestKept(s, s.base, b) == LowestKept(s, LowestKept(s, s.base, a), b)
  {
    var n := LowestKept(s, s.base, a);
    LowestKeptSplits(s, s.base, a, b);
    LowestKeptIs(s, s.base, a);
  }

  lemma {:induction false} LowestKeptIgnoresBase(s: Store, base: int, lo: int, hi: int)
    ensures LowestKept(s.(base := base), lo, hi) == LowestKept(s, lo, hi)
    decreases hi - lo
  {
    if lo < hi { LowestKeptIgnoresBase(s, base, lo + 1, hi); }
  }

  lemma RemovableSplits(s: Store, a: int, b: int)
    requires s.base < a <= b
    ensures var n, first := LowestKept(s, s.base, a), Removable(s, s.base, a);
      first + Removable(Without(s, first).(base := n), n, b) == Removable(s, s.base, b)
  {
    LowestKeptIs(s, s.base, a);
  }

  lemma WithoutTwice(s: Store, g: set<int>, h: set<int>)
    requires Indexed(s)
    ensures Without(Without(s, g), h) == Without(s, g + h)
  {
    assert s.blocks - g - h == s.blocks - (g + h);
  }

  lemma LowestKeptAfterPrune(s: Store, a: int, b: int)
    requires s.base < a <= b
    ensures var n, first := LowestKept(s, s.base, a), Removable(s, s.base, a);
      LowestKept(Without(s, first).(base := n), n, b) == LowestKept(s, s.base, b)
  {
    var n, first := LowestKept(s, s.base, a), Removable(s, s.base, a);
    LowestKeptSkips(s, a, b);
    LowestKeptIgnoresRemovable(s, first, n, b);
    LowestKeptIgnoresBase(Without(s, first), n, n, b);
  }

  /** Pruning to a and then to b leaves exactly what pruning to b leaves. */
  lemma PruneComposes(s: Store, a: int, b: int)
    requires WellFormed(s) && 0 < a <= b <= s.height
    ensures Prune(Prune(s, a).0, b).0 == Prune(s, b).0
  {
    hide LowestKept;
    if s.base < a {
      var n, first := LowestKept(s, s.base, a), Removable(s, s.base, a);
      var t := Prune(s, a).0;
      assert t == Without(s, first).(base := n);
      LowestKeptAfterPrune(s, a, b);
      RemovableSplits(s, a, b);
      var second := Removable(t, n, b);
      WithoutTwice(s, first, second);
      if n >= b {
        assert second == {};
        LowestKeptRange(s, s.base, a);
        LowestKeptRange(s, s.base, b);
        assert Without(s, first) == Without(s, first + second);
      } else {
        assert Without(t, second) == Without(Without(s, first), second).(base := n);
      }
    }
  }

  lemma LowestKeptRange(s: Store, lo: int, hi: int)
    requires lo <= hi
    ensures lo <= LowestKept(s, lo, hi) <= hi
  {
  }

  /** Pruning again to the same height removes nothing. */
  lemma PruneIdempotent(s: Store, a: int)
    requires WellFormed(s) && 0 < a <= s.height
    ensures Prune(Prune(s, a).0, a).0 == Prune(s, a).0
    ensures Prune(Prune(s, a).0, a).1 == Pruned(0, Prune(s, a).0.base)
  {
    PruneComposes(s, a, a);
    var t := Prune(s, a).0;
    if t.base < a {
      assert Removable(t, t.base, a) == {} by {
        LowestKeptIs(s, s.base, a);
      }
    }
  }

  /** A lower target after a higher one changes nothing. */
  lemma PruneLower(s: Store, a: int, b: int)
    requires WellFormed(s) && 0 < b <= a <= s.height
    ensures Prune(Prune(s, a).0, b).0 == Prune(s, a).0
  {
    if s.base < a {
      var n, t := LowestKept(s, s.base, a), Prune(s, a).0;
      LowestKeptIs(s, s.base, a);
      if n < b {
        assert Removable(t, n, b) == {};
        PruneStart(t, n);
      }
    }
  }

  function PruneAll(s: Store, targets: seq<int>): Store {
    if targets == [] then s else Prune(PruneAll(s, targets[..|targets| - 1]), targets[|targets| - 1]).0
  }

  /** The highest target that is not refused, or 0. */
  function Top(s: Store, targets: seq<int>): int {
    if targets == [] then 0 else
      var t, top := targets[|targets| - 1], Top(s, targets[..|targets| - 1]);
      if top < t <= s.height then t else top
  }

  lemma {:induction false} TopAccepted(s: Store, targets: seq<int>)
    ensures 0 <= Top(s, targets) && (Top(s, targets) == 0 || Top(s, targets) <= s.height)
  {
    if targets != [] { TopAccepted(s, targets[..|targets| - 1]); }
  }

  /** Any sequence of prunes, in whatever order and with refused ones among
      them, is the one prune to the highest target. */
  lemma {:induction false} PruneInAnyOrder(s: Store, targets: seq<int>)
    requires WellFormed(s)
    ensures PruneAll(s, targets) == if Top(s, targets) == 0 then s else Prune(s, Top(s, targets)).0
  {
    hide LowestKept, Removable, Without, WellFormed;
    if targets != [] {
      var init, t := targets[..|targets| - 1], targets[|targets| - 1];
      PruneInAnyOrder(s, init);
      TopAccepted(s, init);
      var top := Top(s, init);
      PruneKeepsHeight(s, top);
      if top > 0 && 0 < t <= s.height {
        if t >= top { PruneComposes(s, top, t); } else { PruneLower(s, top, t); }
        if t == top { PruneLower(s, top, t); }
      }
    }
  }

  lemma PruneKeepsHeight(s: Store, before: int)
    ensures Prune(s, before).0.height == s.height && Prune(s, before).0.cfg == s.cfg
  {
  }

  /** What any sequence of prunes leaves, unchanged: exactly the blocks below
      the base, those at or above the highest target, and the protected ones. */
  lemma LeftAfterPrunes(s: Store, targets: seq<int>, h: int)
    requires WellFormed(s)
    ensures h in PruneAll(s, targets).blocks <==>
      h in s.blocks && (h < s.base || h >= Top(s, targets) || Protected(s.cfg, h, s.height))
    ensures h in PruneAll(s, targets).blocks ==> PruneAll(s, targets).blocks[h] == s.blocks[h]
  {
    PruneInAnyOrder(s, targets);
    TopAccepted(s, targets);
  }

  /** The block at height h is one the configuration does not let go: nothing
      is pruned at all, or it is among the newest keepRecent, or it is a
      checkpoint under the default strategy. */
  ghost predicate Spared(cfg: Option<PruneConfig>, h: int, current: int) {
    && cfg.Some?
    && match cfg.value.strategy
       case PruneNothing => true
       case PruneDefault => (cfg.value.keepRecent > 0 && current - h < cfg.value.keepRecent)
                            || (cfg.value.keepEvery > 0 && h % cfg.value.keepEvery == 0)
       case _ => cfg.value.keepRecent > 0 && current - h < cfg.value.keepRecent
  }

  lemma SparedIsProtected(cfg: Option<PruneConfig>, h: int, current: int)
    ensures Spared(cfg, h, current) <==> Protected(cfg, h, current)
  {
  }

  /** The blocks one accepted prune leaves, in terms of the configuration: those
      below the base, those at or above the target and the spared ones, each as
      it was. */
  lemma PruneLeavesExactly(s: Store, before: int, h: int)
    requires 0 < before <= s.height
    ensures h in Prune(s, before).0.blocks <==>
      h in s.blocks && (h < s.base || h >= before || Spared(s.cfg, h, s.height))
    ensures h in Prune(s, before).0.blocks ==> Prune(s, before).0.blocks[h] == s.blocks[h]
  {
    hide Spared;
    SparedIsProtected(s.cfg, h, s.height);
  }

  /** The base a prune leaves is the lowest spared block of the range, or the target. */
  lemma PruneBaseExactly(s: Store, before: int)
    requires s.base < before && 0 < before <= s.height
    ensures var b := Prune(s, before).0.base;
      && s.base <= b <= before
      && (b < before ==> b in s.blocks && Spared(s.cfg, b, s.height))
      && forall h :: s.base <= h < b && h in s.blocks ==> !Spared(s.cfg, h, s.height)
  {
    hide Spared, Protected;
    LowestKeptIs(s, s.base, before);
    var b := Prune(s, before).0.base;
    forall h ensures Spared(s.cfg, h, s.height) == Protected(s.cfg, h, s.height) { SparedIsProtected(s.cfg, h, s.height); }
  }

  /** The same of any sequence of prunes, in whatever order. */
  lemma PrunesLeaveExactly(s: Store, targets: seq<int>, h: int)
    requires WellFormed(s)
    ensures h in PruneAll(s, targets).blocks <==>
      && h in s.blocks
      && (h < s.base || Spared(s.cfg, h, s.height) || forall t :: t in targets && t <= s.height ==> t <= h || t <= 0)
    ensures h in PruneAll(s, targets).blocks ==> PruneAll(s, targets).blocks[h] == s.blocks[h]
  {
    hide Spared, Protected, PruneAll, WellFormed;
    LeftAfterPrunes(s, targets, h);
    SparedIsProtected(s.cfg, h, s.height);
    TopIsGreatest(s, targets);
    StoredNonNegative(s);
  }

  lemma StoredNonNegative(s: Store)
    requires WellFormed(s)
    ensures forall h :: h in s.blocks ==> 0 <= h
  {
  }

  lemma {:induction false} TopIsGreatest(s: Store, targets: seq<int>)
    ensures Top(s, targets) == 0 || (Top(s, targets) in targets && 0 < Top(s, targets) <= s.height)
    ensures forall t :: t in targets && t <= s.height ==> t <= Top(s, targets)
  {
    if targets != [] {
      var init, last := targets[..|targets| - 1], targets[|targets| - 1];
      TopIsGreatest(s, init);
      TopAccepted(s, init);
      forall t | t in targets && t <= s.height ensures t <= Top(s, targets) { assert t == last || t in init; }
    }
  }

  // ----- what a save makes loadable

  datatype Change = Saving(height: int, hash: Hash, data: seq<byte>) | PruningTo(before: int)

  function Changed(s: Store, c: Change): Store {
    match c
    case Saving(height, hash, data) => Save(s, height, hash, data)
    case PruningTo(before) => Prune(s, before).0
  }

  function After(s: Store, cs: seq<Change>): Store {
    if cs == [] then s else Changed(After(s, cs[..|cs| - 1]), cs[|cs| - 1])
  }

  ghost predicate ValidChanges(cs: seq<Change>) {
    forall i :: 0 <= i < |cs| && cs[i].Saving? ==> 0 <= cs[i].height <= MAX_INT64
  }

  /** This change is an accepted prune that covers height h and does not spare it. */
  ghost predicate PrunesAway(s: Store, c: Change, h: int) {
    c.PruningTo? && 0 < c.before <= s.height && s.base <= h < c.before && !Spared(s.cfg, h, s.height)
  }

  /** Block h is there, under its height and under its hash. */
  ghost predicate Held(s: Store, h: int, e: Entry) {
    Load(s, h) == Some(e) && LoadByHash(s, e.hash) == Some((h, e.data))
  }

  lemma ChangedWellFormed(s: Store, c: Change)
    requires WellFormed(s) && ValidChanges([c])
    ensures WellFormed(Changed(s, c))
  {
    hide WellFormed, Save, Prune;
    assert c.Saving? ==> 0 <= [c][0].height <= MAX_INT64;
    match c
    case Saving(height, hash, data) => SaveKeepsWellFormed(s, height, hash, data);
    case PruningTo(before) => PruneKeepsWellFormed(s, before);
  }

  lemma HeldIffLoaded(s: Store, h: int, e: Entry)
    requires WellFormed(s)
    ensures Held(s, h, e) <==> Load(s, h) == Some(e)
    ensures Held(s, h, e) <==> LoadByHash(s, e.hash) == Some((h, e.data))
  {
  }

  /** A held block stays held by a change unless the change prunes it away. */
  lemma ChangeKeeps(s: Store, c: Change, h: int, e: Entry)
    requires WellFormed(s) && ValidChanges([c]) && Held(s, h, e)
    ensures Held(Changed(s, c), h, e) <==> !PrunesAway(s, c, h)
  {
    hide WellFormed, Spared, Held, Prune, Indexed;
    ChangedWellFormed(s, c);
    HeldIffLoaded(s, h, e);
    HeldIffLoaded(Changed(s, c), h, e);
    if c.PruningTo? && 0 < c.before <= s.height {
      PruneLeavesExactly(s, c.before, h);
    } else if c.PruningTo? {
      RefusedPrune(s, c.before);
    }
  }

  lemma RefusedPrune(s: Store, before: int)
    requires !(0 < before <= s.height)
    ensures Prune(s, before).0 == s
  {
  }

  lemma {:induction false} AfterWellFormed(s: Store, cs: seq<Change>)
    requires WellFormed(s) && ValidChanges(cs)
    ensures WellFormed(After(s, cs))
  {
    hide WellFormed, Changed;
    if cs != [] {
      var last := |cs| - 1;
      AfterWellFormed(s, cs[..last]);
      assert ValidChanges([cs[last]]);
      ChangedWellFormed(After(s, cs[..last]), cs[last]);
    }
  }

  /** The block is held after each of the first n changes. */
  ghost predicate HeldThroughout(s: Store, cs: seq<Change>, n: nat, h: int, e: Entry)
    requires n <= |cs|
  {
    forall i :: 0 <= i <= n ==> Held(After(s, cs[..i]), h, e)
  }

  /** None of the first n changes prunes the block away. */
  ghost predicate NeverPruned(s: Store, cs: seq<Change>, n: nat, h: int)
    requires n <= |cs|
  {
    forall i :: 0 <= i < n ==> !PrunesAway(After(s, cs[..i]), cs[i], h)
  }

  lemma {:induction false} HeldUntilPruned(s: Store, cs: seq<Change>, n: nat, h: int, e: Entry)
    requires WellFormed(s) && ValidChanges(cs) && Held(s, h, e) && n <= |cs|
    ensures HeldThroughout(s, cs, n, h, e) <==> NeverPruned(s, cs, n, h)
  {
    hide WellFormed, PrunesAway, Held, Changed;
    if n == 0 {
      assert cs[..0] == [];
    } else {
      var m := n - 1;
      HeldUntilPruned(s, cs, m, h, e);
      assert cs[..n][..m] == cs[..m] && cs[..n][m] == cs[m];
      if HeldThroughout(s, cs, m, h, e) {
        AfterWellFormed(s, cs[..m]);
        assert ValidChanges([cs[m]]);
        ChangeKeeps(After(s, cs[..m]), cs[m], h, e);
        assert After(s, cs[..n]) == Changed(After(s, cs[..m]), cs[m]);
      }
    }
  }

  /** A block that was accepted can be loaded, by height and by hash, after any
      further saves and prunes, exactly until a prune that covers it and does
      not spare it. */
  lemma LoadAfterSave(s: Store, height: int, hash: Hash, data: seq<byte>, cs: seq<Change>)
    requires WellFormed(s) && 0 <= height <= MAX_INT64 && ValidChanges(cs)
    requires height !in s.blocks && hash !in s.byHash
    ensures var t := Save(s, height, hash, data);
      HeldThroughout(t, cs, |cs|, height, Entry(hash, data)) <==> NeverPruned(t, cs, |cs|, height)
  {
    hide HeldThroughout, NeverPruned, WellFormed;
    SaveKeepsWellFormed(s, height, hash, data);
    HeldUntilPruned(Save(s, height, hash, data), cs, |cs|, height, Entry(hash, data));
  }

  // ----- background pruning

  /** `doPrune`: nothing to do on an empty store or without a target. */
  function DoPrune(s: Store, cfg: Option<PruneConfig>): (Store, PruneOutcome) {
    var target := CalculatePruneTarget(cfg, s.height);
    if s.height == 0 || target <= 0 then (s, Pruned(0, 0)) else Prune(s, target)
  }

  /** The background pruner's target is refused exactly when KeepRecent is
      negative; otherwise it never removes one of the KeepRecent newest blocks. */
  lemma DoPruneAccepted(s: Store, cfg: Option<PruneConfig>)
    requires WellFormed(s) && s.height > 0
    ensures DoPrune(s, cfg).1.Pruned? <==> cfg.None? || cfg.value.strategy == PruneNothing || cfg.value.keepRecent >= 0
    ensures !DoPrune(s, cfg).1.Pruned? ==> DoPrune(s, cfg).1 == PruneHeightTooHigh && DoPrune(s, cfg).0 == s
    ensures cfg.Some? ==> forall h :: h in s.blocks && h > s.height - cfg.value.keepRecent ==> h in DoPrune(s, cfg).0.blocks
  {
  }

  // ----- the object

  class MemoryBlockStore {
    var blocks: map<int, Entry>
    var byHash: map<Hash, int>
    var height: int
    var base: int
    var pruneCfg: Option<PruneConfig>

    function Value(): Store
      reads this
    {
      Store(blocks, byHash, height, base, pruneCfg)
    }

    constructor ()
      ensures Value() == Empty(None) && WellFormed(Value()) && BaseBelow(Value())
    {
      blocks, byHash, height, base, pruneCfg := map[], map[], 0, 0, None;
      new;
      EmptyWellFormed(None);
    }

    method SaveBlock(h: int, hash: Hash, data: seq<byte>) returns (ok: bool)
      requires Indexed(Value())
      modifies this
      ensures ok <==> CanSave(old(Value()), h, hash)
      ensures Value() == Save(old(Value()), h, hash, data)
    {
      if h in blocks { return false; }
      if hash in byHash && byHash[hash] != h { return false; }
      blocks := blocks[h := Entry(hash, data)];
      byHash := byHash[hash := h];
      if base == 0 || h < base { base := h; }
      if h > height { height := h; }
      return true;
    }

    method LoadBlock(h: int) returns (r: Option<Entry>)
      ensures r == Load(Value(), h)
    {
      return if h in blocks then Some(blocks[h]) else None;
    }

    method LoadBlockByHash(hash: Hash) returns (r: Option<(int, seq<byte>)>)
      requires Indexed(Value())
      ensures r == LoadByHash(Value(), hash)
    {
      if hash !in byHash { return None; }
      var h := byHash[hash];
      return Some((h, blocks[h].data));
    }

    method PruneBlocks(before: int) returns (r: PruneOutcome)
      requires Indexed(Value())
      modifies this
      ensures (Value(), r) == Prune(old(Value()), before)
    {
      hide LowestKept, Removable, Without, Indexed;
      if before <= 0 { return InvalidPruneHeight; }
      if before > height { return PruneHeightTooHigh; }
      if base >= before { return Pruned(0, base); }
      ghost var s := Value();
      PruneStart(s, base);
      var count, newBase, h := 0, before, base;
      while h < before
        invariant base <= h <= before && base == s.base && height == s.height && pruneCfg == s.cfg
        invariant Value() == Without(s, Removable(s, base, h))
        invariant count == |Removable(s, base, h)|
        invariant newBase == if LowestKept(s, base, h) < h then LowestKept(s, base, h) else before
      {
        PruneStep(s, base, h);
        if h in blocks {
          if Protected(pruneCfg, h, height) {
            if h < newBase { newBase := h; }
          } else {
            byHash := byHash - {blocks[h].hash};
            blocks := blocks - {h};
            count := count + 1;
          }
        }
        h := h + 1;
      }
      if newBase > base { base := newBase; }
      return Pruned(count, base);
    }
  }

  lemma PruneStart(s: Store, lo: int)
    ensures Removable(s, lo, lo) == {} && Without(s, {}) == s && LowestKept(s, lo, lo) == lo
  {
    assert s.blocks - {} == s.blocks;
  }

  /** What visiting height h adds to a prune that has come from lo. */
  lemma PruneStep(s: Store, lo: int, h: int)
    requires Indexed(s) && lo <= h
    ensures var gone, t := Removable(s, lo, h), Without(s, Removable(s, lo, h));
      && (h in t.blocks <==> h in s.blocks)
      && (h in s.blocks && !Protected(s.cfg, h, s.height) ==>
            && Removable(s, lo, h + 1) == gone + {h} && |gone + {h}| == |gone| + 1
            && Without(s, Removable(s, lo, h + 1))
               == t.(blocks := t.blocks - {h}, byHash := t.byHash - {t.blocks[h].hash}))
      && (h !in s.blocks || Protected(s.cfg, h, s.height) ==> Removable(s, lo, h + 1) == gone)
    ensures var n := LowestKept(s, lo, h);
      LowestKept(s, lo, h + 1) == if n < h then n else if h in s.blocks && Protected(s.cfg, h, s.height) then h else h + 1
    ensures lo <= LowestKept(s, lo, h) <= h
  {
    hide LowestKept, Protected, Without, Indexed;
    LowestKeptSplits(s, lo, h, h + 1);
    LowestKeptAt(s, h);
    LowestKeptRange(s, lo, h);
    WithoutBlocks(s, Removable(s, lo, h));
    var gone := Removable(s, lo, h);
    if h in s.blocks && !Protected(s.cfg, h, s.height) {
      assert Removable(s, lo, h + 1) == gone + {h};
      WithoutOne(s, gone, h);
    } else {
      assert Removable(s, lo, h + 1) == gone;
    }
  }

  lemma LowestKeptAt(s: Store, h: int)
    ensures LowestKept(s, h, h + 1) == if h in s.blocks && Protected(s.cfg, h, s.height) then h else h + 1
  {
  }

  lemma WithoutBlocks(s: Store, gone: set<int>)
    ensures Without(s, gone).blocks == s.blocks - gone
  {
  }

  lemma WithoutOne(s: Store, gone: set<int>, h: int)
    requires Indexed(s) && h in s.blocks && h !in gone
    ensures var t := Without(s, gone);
      h in t.blocks && Without(s, gone + {h}) == t.(blocks := t.blocks - {h}, byHash := t.byHash - {t.blocks[h].hash})
  {
    var t, u := Without(s, gone), Without(s, gone + {h});
    assert u.blocks == t.blocks - {h};
    assert u.byHash == t.byHash - {t.blocks[h].hash};
  }
}
