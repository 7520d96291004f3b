/** Block synchronisation: what one reactor does with requests and responses. */
module BlockSync {
  import opened Wrappers
  import opened Bytes
  import opened MemoryStore

  type PeerId = string

  datatype BlockData = BlockData(height: int, hash: Hash, data: seq<byte>)

  datatype PendingRequest = PendingRequest(startHeight: int, endHeight: int, requestedAt: int)

  const MAX_BATCH_SIZE := 1000
  const MAX_BLOCK_HEIGHT := 0x3fff_ffff_ffff_ffff
  const MAX_MESSAGE_SIZE := 10 * 1024 * 1024

  /** The callbacks: the block hash and the configured validator, if any. */
  datatype Rules = Rules(hashBlock: seq<byte> -> Hash, validator: Option<(int, Hash, seq<byte>) -> bool>)

  // ----- serving a request

  function ClampBatchSize(size: int): (n: int)
    ensures 1 <= n <= MAX_BATCH_SIZE
    ensures 1 <= size <= MAX_BATCH_SIZE ==> n == size
  {
    if size < 1 then 1 else if size > MAX_BATCH_SIZE then MAX_BATCH_SIZE else size
  }

  predicate ValidHeight(h: int) {
    0 <= h <= MAX_BLOCK_HEIGHT
  }

  /** The stored blocks from `since` on, up to the first missing one, at most n. */
  function Stretch(s: Store, since: int, n: nat): seq<BlockData>
    decreases n
  {
    if n == 0 || since > s.height || since !in s.blocks then []
    else [BlockData(since, s.blocks[since].hash, s.blocks[since].data)] + Stretch(s, since + 1, n - 1)
  }

  /** handleBlocksRequest: None for a malformed request. */
  method Serve(s: Store, since: int, batchSize: int) returns (blocks: Option<seq<BlockData>>)
    ensures blocks.None? <==> !ValidHeight(since)
    ensures blocks.Some? ==> blocks.value == Stretch(s, since, ClampBatchSize(batchSize))
    ensures blocks.Some? ==> StoredRun(s, since, ClampBatchSize(batchSize), blocks.value)
  {
    hide Stretch, ClampBatchSize, StoredRun;
    StretchIsStoredRun(s, since, ClampBatchSize(batchSize));
    if !ValidHeight(since) { return None; }
    var n := ClampBatchSize(batchSize);
    var out: seq<BlockData> := [];
    var h := since;
    while h <= s.height && |out| < n && h in s.blocks
      invariant h == since + |out| && |out| <= n
      invariant out + Stretch(s, h, n - |out|) == Stretch(s, since, n)
      decreases n - |out|
    {
      StretchStep(s, h, n - |out|);
      out := out + [BlockData(h, s.blocks[h].hash, s.blocks[h].data)];
      h := h + 1;
    }
    StretchStep(s, h, n - |out|);
    assert out + [] == out;
    return Some(out);
  }

  /** The blocks are the stored ones from `since` on, each as stored, and there
      are as many as the batch allows before the first missing height. */
  ghost predicate StoredRun(s: Store, since: int, n: nat, blocks: seq<BlockData>) {
    && |blocks| <= n
    && (forall i :: 0 <= i < |blocks| ==> StoredAs(s, since + i, blocks[i]))
    && (|blocks| == n || since + |blocks| > s.height || since + |blocks| !in s.blocks)
  }

  lemma {:induction false} StretchIsStoredRun(s: Store, since: int, n: nat)
    ensures StoredRun(s, since, n, Stretch(s, since, n))
    decreases n
  {
    if n > 0 && since <= s.height && since in s.blocks {
      StretchIsStoredRun(s, since + 1, n - 1);
      var all, rest := Stretch(s, since, n), Stretch(s, since + 1, n - 1);
      forall i | 0 <= i < |all| ensures StoredAs(s, since + i, all[i]) {
        if i > 0 { assert all[i] == rest[i - 1] && StoredAs(s, since + 1 + (i - 1), rest[i - 1]); }
      }
      assert since + 1 + |rest| == since + |all|;
    }
  }

  ghost predicate StoredAs(s: Store, h: int, b: BlockData) {
    h <= s.height && h in s.blocks && b == BlockData(h, s.blocks[h].hash, s.blocks[h].data)
  }

  lemma StretchStep(s: Store, h: int, n: nat)
    ensures Stretch(s, h, n) == if n == 0 || h > s.height || h !in s.blocks then []
      else [BlockData(h, s.blocks[h].hash, s.blocks[h].data)] + Stretch(s, h + 1, n - 1)
  {
  }

  // ----- checking a response

  predicate WellFormedBlock(b: BlockData) {
    ValidHeight(b.height) && b.hash != [] && 0 < |b.data| <= MAX_MESSAGE_SIZE
  }

  /** The response is well formed, starts at or below the next height, and has no gap. */
  predicate Contiguous(s: Store, blocks: seq<BlockData>) {
    && (forall i :: 0 <= i < |blocks| ==> WellFormedBlock(blocks[i]))
    && (blocks != [] ==> blocks[0].height <= s.height + 1)
    && forall i :: 0 < i < |blocks| ==> blocks[i].height == blocks[i - 1].height + 1
  }

  /** Block i is reason enough to refuse the response. */
  ghost predicate Offends(s: Store, blocks: seq<BlockData>, i: nat)
    requires i < |blocks|
  {
    var b := blocks[i];
    || b.height < 0 || b.height > 0x3fff_ffff_ffff_ffff || b.hash == [] || b.data == [] || |b.data| > 10 * 1024 * 1024
    || (if i == 0 then b.height > s.height + 1 else b.height != blocks[i - 1].height + 1)
  }

  lemma SomeBlockOffends(s: Store, blocks: seq<BlockData>)
    requires !Contiguous(s, blocks)
    ensures exists i :: 0 <= i < |blocks| && Offends(s, blocks, i)
  {
    if blocks != [] && blocks[0].height > s.height + 1 {
      assert Offends(s, blocks, 0);
    } else {
      var i :| 0 <= i < |blocks| && (!WellFormedBlock(blocks[i]) || (i > 0 && blocks[i].height != blocks[i - 1].height + 1));
      assert Offends(s, blocks, i);
    }
  }

  method CheckContiguous(s: Store, blocks: seq<BlockData>) returns (ok: bool)
    ensures ok <==> Contiguous(s, blocks)
    ensures ok ==> forall i :: 0 <= i < |blocks| ==>
      && 0 <= blocks[i].height <= 0x3fff_ffff_ffff_ffff && blocks[i].hash != [] && 0 < |blocks[i].data| <= 10 * 1024 * 1024
      && blocks[i].height == blocks[0].height + i <= s.height + 1 + i
    ensures !ok ==> exists i :: 0 <= i < |blocks| && Offends(s, blocks, i)
  {
    if Contiguous(s, blocks) {
      forall i | 0 <= i < |blocks| ensures blocks[i].height == blocks[0].height + i { ContiguousIsConsecutive(s, blocks, i); }
    } else {
      SomeBlockOffends(s, blocks);
    }
    var expected := s.height + 1;
    for i := 0 to |blocks|
      invariant forall j :: 0 <= j < i ==> WellFormedBlock(blocks[j])
      invariant i > 0 ==> blocks[0].height <= s.height + 1 && expected == blocks[i - 1].height + 1
      invariant i == 0 ==> expected == s.height + 1
      invariant forall j :: 0 < j < i ==> blocks[j].height == blocks[j - 1].height + 1
    {
      if !WellFormedBlock(blocks[i]) { return false; }
      var h := blocks[i].height;
      if i == 0 {
        if h < expected && h in s.blocks {
          expected := h + 1;
          continue;
        }
        if h > expected { return false; }
        expected := h + 1;
      } else {
        if h != expected { return false; }
        expected := expected + 1;
      }
    }
    return true;
  }

  // ----- storing a response

  /** A block that is hashed as claimed and passes the validator; without a validator none does. */
  predicate Genuine(r: Rules, b: BlockData) {
    r.hashBlock(b.data) == b.hash && r.validator.Some? && r.validator.value(b.height, b.hash, b.data)
  }

  /** The store after one block: a refused block changes nothing. */
  function StoreOne(r: Rules, s: Store, b: BlockData): Store {
    if b.height in s.blocks || !Genuine(r, b) then s else Save(s, b.height, b.hash, b.data)
  }

  function StoreAll(r: Rules, s: Store, blocks: seq<BlockData>): Store
    decreases |blocks|
  {
    if blocks == [] then s else StoreAll(r, StoreOne(r, s, blocks[0]), blocks[1..])
  }

  /** How many new blocks were refused by the hash or the validator. */
  function Penalties(r: Rules, s: Store, blocks: seq<BlockData>): nat
    decreases |blocks|
  {
    if blocks == [] then 0 else
      Penalties(r, StoreOne(r, s, blocks[0]), blocks[1..])
      + (if blocks[0].height !in s.blocks && !Genuine(r, blocks[0]) then 1 else 0)
  }

  method StoreBlocks(r: Rules, s: Store, blocks: seq<BlockData>) returns (t: Store, penalties: nat)
    ensures t == StoreAll(r, s, blocks) && penalties == Penalties(r, s, blocks)
  {
    t, penalties := s, 0;
    assert blocks[0..] == blocks;
    for i := 0 to |blocks|
      invariant StoreAll(r, t, blocks[i..]) == StoreAll(r, s, blocks)
      invariant penalties + Penalties(r, t, blocks[i..]) == Penalties(r, s, blocks)
    {
      assert blocks[i..][1..] == blocks[i + 1..];
      var b := blocks[i];
      if b.height in t.blocks { continue; }
      if r.hashBlock(b.data) != b.hash {
        penalties := penalties + 1;
        continue;
      }
      if r.validator.None? || !r.validator.value(b.height, b.hash, b.data) {
        penalties := penalties + 1;
        continue;
      }
      t := Save(t, b.height, b.hash, b.data);
    }
  }

  /** Whatever the response, stored blocks stay as they are and a new one is a
      block of the response that hashes as claimed and passed the validator. */
  lemma {:induction false} OnlyGenuineStored(r: Rules, s: Store, blocks: seq<BlockData>, h: int)
    requires h in StoreAll(r, s, blocks).blocks
    ensures var e := StoreAll(r, s, blocks).blocks[h];
      if h in s.blocks then e == s.blocks[h]
      else BlockData(h, e.hash, e.data) in blocks && Genuine(r, BlockData(h, e.hash, e.data))
    decreases |blocks|
  {
    if blocks != [] {
      OnlyGenuineStored(r, StoreOne(r, s, blocks[0]), blocks[1..], h);
      assert blocks == [blocks[0]] + blocks[1..];
    }
  }

  /** The data hashes to what the block claims, and a validator is set and accepts it. */
  ghost predicate Checked(r: Rules, b: BlockData) {
    && r.hashBlock(b.data) == b.hash
    && exists accepts :: r.validator == Some(accepts) && accepts(b.height, b.hash, b.data)
  }

  /** A height that is new in the store is that of a block of the response, with
      that hash and data, which a validator is set for and accepted. */
  lemma NewHeightIsChecked(r: Rules, s: Store, blocks: seq<BlockData>, h: int)
    requires h in StoreAll(r, s, blocks).blocks && h !in s.blocks
    ensures exists b :: b in blocks && b.height == h && StoreAll(r, s, blocks).blocks[h] == Entry(b.hash, b.data) && Checked(r, b)
  {
    hide StoreAll;
    OnlyGenuineStored(r, s, blocks, h);
    var e := StoreAll(r, s, blocks).blocks[h];
    var b := BlockData(h, e.hash, e.data);
    assert b in blocks && b.height == h && StoreAll(r, s, blocks).blocks[h] == Entry(b.hash, b.data) && Checked(r, b);
  }

  /** The converse: a checked block whose height and hash are both new to the
      store, and to the rest of the response, is stored. */
  lemma {:induction false} CheckedIsStored(r: Rules, s: Store, blocks: seq<BlockData>, i: nat)
    requires i < |blocks| && Checked(r, blocks[i])
    requires blocks[i].height !in s.blocks && blocks[i].hash !in s.byHash
    requires forall j :: 0 <= j < i ==> blocks[j].height != blocks[i].height && blocks[j].hash != blocks[i].hash
    ensures var t := StoreAll(r, s, blocks);
      blocks[i].height in t.blocks && t.blocks[blocks[i].height] == Entry(blocks[i].hash, blocks[i].data)
    decreases i
  {
    hide Checked, Genuine;
    var t := StoreOne(r, s, blocks[0]);
    if i == 0 {
      CheckedIsGenuine(r, blocks[0]);
      StoredStays(r, t, blocks[1..], blocks[0].height);
    } else {
      assert blocks[1..][i - 1] == blocks[i];
      assert forall j :: 0 <= j < i - 1 ==> blocks[1..][j] == blocks[j + 1];
      CheckedIsStored(r, t, blocks[1..], i - 1);
    }
  }

  lemma CheckedIsGenuine(r: Rules, b: BlockData)
    ensures Checked(r, b) <==> Genuine(r, b)
  {
    if Genuine(r, b) { assert r.validator == Some(r.validator.value); }
  }

  lemma {:induction false} StoredStays(r: Rules, s: Store, blocks: seq<BlockData>, h: int)
    requires h in s.blocks
    ensures h in StoreAll(r, s, blocks).blocks && StoreAll(r, s, blocks).blocks[h] == s.blocks[h]
    decreases |blocks|
  {
    if blocks != [] { StoredStays(r, StoreOne(r, s, blocks[0]), blocks[1..], h); }
  }

  /** How many of the blocks are for heights the store lacks. */
  function Lacking(s: Store, blocks: seq<BlockData>): nat {
    if blocks == [] then 0 else Lacking(s, blocks[1..]) + if blocks[0].height in s.blocks then 0 else 1
  }

  /** With no validator, or one that accepts nothing, the store stays as it is
      and every block for a height it lacks costs the sender a penalty. */
  lemma {:induction false} NothingAccepted(r: Rules, s: Store, blocks: seq<BlockData>)
    requires forall i :: 0 <= i < |blocks| ==> !Checked(r, blocks[i])
    ensures StoreAll(r, s, blocks) == s && Penalties(r, s, blocks) == Lacking(s, blocks)
    decreases |blocks|
  {
    hide Checked, Genuine;
    if blocks != [] {
      CheckedIsGenuine(r, blocks[0]);
      assert forall i :: 0 <= i < |blocks| - 1 ==> blocks[1..][i] == blocks[i + 1];
      NothingAccepted(r, s, blocks[1..]);
    }
  }

  /** Fail closed. */
  lemma NoValidatorNoBlock(r: Rules, s: Store, blocks: seq<BlockData>)
    requires r.validator.None? || forall h, x, d :: !r.validator.value(h, x, d)
    ensures StoreAll(r, s, blocks) == s && Penalties(r, s, blocks) == Lacking(s, blocks)
  {
    hide StoreAll, Penalties, Lacking;
    NothingAccepted(r, s, blocks);
  }

  // ----- gaps

  /** Exactly the heights 1 to Height are stored. */
  ghost predicate GapFree(s: Store) {
    s.height >= 0 && forall h :: h in s.blocks <==> 1 <= h <= s.height
  }

  ghost predicate ConsecutiveFrom(blocks: seq<BlockData>, h: int) {
    forall i :: 0 <= i < |blocks| ==> blocks[i].height == h + i
  }

  /** Block i of a response from height h will be stored: the client lacks its
      height, it is genuine, and neither the store nor a genuine new block
      before it has its hash. */
  ghost predicate Storable(r: Rules, s: Store, blocks: seq<BlockData>, h: int, i: int)
    requires 0 <= i < |blocks|
  {
    New(s, h, i) && Genuine(r, blocks[i]) && blocks[i].hash !in s.byHash && !Repeats(r, s, blocks, h, i)
  }

  predicate New(s: Store, h: int, i: int) {
    h + i !in s.blocks
  }

  ghost predicate Repeats(r: Rules, s: Store, blocks: seq<BlockData>, h: int, i: int)
    requires 0 <= i < |blocks|
  {
    exists j :: 0 <= j < i && New(s, h, j) && Genuine(r, blocks[j]) && blocks[j].hash == blocks[i].hash
  }

  /** No block to be stored has one before it that is lacking but not to be
      stored, and none is for height 0. */
  ghost predicate NoneSkipped(r: Rules, s: Store, blocks: seq<BlockData>, h: int) {
    && (forall i, j :: 0 <= i < j < |blocks| && h + i >= 1 && New(s, h, i) && Storable(r, s, blocks, h, j) ==>
          Storable(r, s, blocks, h, i))
    && (h == 0 && blocks != [] ==> !Storable(r, s, blocks, h, 0))
  }

  lemma {:induction false} StoreAllAppend(r: Rules, s: Store, blocks: seq<BlockData>, b: BlockData)
    ensures StoreAll(r, s, blocks + [b]) == StoreOne(r, StoreAll(r, s, blocks), b)
    decreases |blocks|
  {
    hide StoreOne;
    if blocks == [] {
      assert ([] + [b])[1..] == [];
    } else {
      assert (blocks + [b])[1..] == blocks[1..] + [b];
      StoreAllAppend(r, StoreOne(r, s, blocks[0]), blocks[1..], b);
    }
  }

  /** Where the loop stands after k blocks: exactly the storable ones of them are
      in, and the hashes taken are the old ones and those of genuine new blocks. */
  ghost predicate StoredUpTo(r: Rules, s: Store, blocks: seq<BlockData>, h: int, k: nat, t: Store)
    requires k <= |blocks|
  {
    && (forall g :: g in t.blocks <==> g in s.blocks || (h <= g < h + k && Storable(r, s, blocks, h, g - h)))
    && (forall x :: x in t.byHash <==> x in s.byHash || HashTaken(r, s, blocks, h, k, x))
    && s.height <= t.height && (t.height == s.height || (t.height in t.blocks && t.height > s.height))
    && (forall g :: g in t.blocks ==> g <= t.height)
  }

  ghost predicate HashTaken(r: Rules, s: Store, blocks: seq<BlockData>, h: int, k: nat, x: Hash)
    requires k <= |blocks|
  {
    exists j :: 0 <= j < k && New(s, h, j) && Genuine(r, blocks[j]) && blocks[j].hash == x
  }

  lemma HashTakenNext(r: Rules, s: Store, blocks: seq<BlockData>, h: int, k: nat, x: Hash)
    requires k < |blocks|
    ensures HashTaken(r, s, blocks, h, k + 1, x) <==>
      HashTaken(r, s, blocks, h, k, x) || (New(s, h, k) && Genuine(r, blocks[k]) && blocks[k].hash == x)
    ensures Repeats(r, s, blocks, h, k) <==> HashTaken(r, s, blocks, h, k, blocks[k].hash)
  {
    hide Genuine;
  }

  lemma StoredNext(r: Rules, s: Store, blocks: seq<BlockData>, h: int, k: nat, t: Store)
    requires GapFree(s) && 0 <= h <= s.height + 1 && k < |blocks| && blocks[k].height == h + k
    requires StoredUpTo(r, s, blocks, h, k, t)
    ensures StoredUpTo(r, s, blocks, h, k + 1, StoreOne(r, t, blocks[k]))
  {
    hide HashTaken, Repeats, Genuine;
    forall x ensures HashTaken(r, s, blocks, h, k + 1, x) <==>
      HashTaken(r, s, blocks, h, k, x) || (New(s, h, k) && Genuine(r, blocks[k]) && blocks[k].hash == x)
    {
      HashTakenNext(r, s, blocks, h, k, x);
    }
    HashTakenNext(r, s, blocks, h, k, blocks[k].hash);
    assert h + k in t.blocks <==> !New(s, h, k);
    assert CanSave(t, h + k, blocks[k].hash) <==> New(s, h, k) && blocks[k].hash !in t.byHash;
  }

  /** The blocks stored are exactly those that could be told beforehand. */
  lemma {:induction false} StoredExactly(r: Rules, s: Store, blocks: seq<BlockData>, h: int, k: nat)
    requires GapFree(s) && 0 <= h <= s.height + 1 && ConsecutiveFrom(blocks, h) && k <= |blocks|
    ensures StoredUpTo(r, s, blocks, h, k, StoreAll(r, s, blocks[..k]))
    decreases k
  {
    hide StoredUpTo, StoreOne, GapFree;
    if k == 0 {
      NothingStored(r, s, blocks, h);
    } else {
      StoredExactly(r, s, blocks, h, k - 1);
      assert blocks[..k] == blocks[..k - 1] + [blocks[k - 1]];
      StoreAllAppend(r, s, blocks[..k - 1], blocks[k - 1]);
      StoredNext(r, s, blocks, h, k - 1, StoreAll(r, s, blocks[..k - 1]));
    }
  }

  lemma NothingStored(r: Rules, s: Store, blocks: seq<BlockData>, h: int)
    requires GapFree(s)
    ensures StoredUpTo(r, s, blocks, h, 0, s)
  {
    hide Genuine;
  }

  function FirstHeight(blocks: seq<BlockData>): int {
    if blocks == [] then 1 else blocks[0].height
  }

  lemma {:induction false} ContiguousIsConsecutive(s: Store, blocks: seq<BlockData>, i: nat)
    requires Contiguous(s, blocks) && i < |blocks|
    ensures blocks[i].height == FirstHeight(blocks) + i
    decreases i
  {
    if i > 0 { ContiguousIsConsecutive(s, blocks, i - 1); }
  }

  /** A response that passes the check leaves a gapless store gapless exactly
      when no block of it is stored behind a new one that is not. The loop
      itself does not see to that: it goes on after a refusal. */
  lemma GapFreeExactly(r: Rules, s: Store, blocks: seq<BlockData>)
    requires GapFree(s) && Contiguous(s, blocks)
    ensures GapFree(StoreAll(r, s, blocks)) <==> NoneSkipped(r, s, blocks, FirstHeight(blocks))
  {
    hide Genuine, StoreAll, Repeats;
    var h := FirstHeight(blocks);
    forall i | 0 <= i < |blocks| ensures blocks[i].height == h + i { ContiguousIsConsecutive(s, blocks, i); }
    StoredExactly(r, s, blocks, h, |blocks|);
    assert blocks[..|blocks|] == blocks;
    GapFreeAfter(r, s, blocks, h, StoreAll(r, s, blocks));
  }

  /** What is known of the result at height g. */
  lemma StoredAt(r: Rules, s: Store, blocks: seq<BlockData>, h: int, t: Store, g: int)
    requires StoredUpTo(r, s, blocks, h, |blocks|, t)
    ensures g in t.blocks <==> g in s.blocks || (h <= g < h + |blocks| && Storable(r, s, blocks, h, g - h))
    ensures g in t.blocks ==> g <= t.height
    ensures s.height <= t.height && (t.height == s.height || (t.height in t.blocks && t.height > s.height))
  {
    hide Storable, HashTaken;
  }

  lemma GapFreeAfter(r: Rules, s: Store, blocks: seq<BlockData>, h: int, t: Store)
    requires GapFree(s) && 0 <= h <= s.height + 1 && StoredUpTo(r, s, blocks, h, |blocks|, t)
    ensures GapFree(t) <==> NoneSkipped(r, s, blocks, h)
  {
    hide StoredUpTo, Storable;
    if NoneSkipped(r, s, blocks, h) {
      StoredAt(r, s, blocks, h, t, t.height);
      forall g ensures g in t.blocks <==> 1 <= g <= t.height { FilledAt(r, s, blocks, h, t, g); }
    } else {
      var g := SkippedAt(r, s, blocks, h, t);
    }
  }

  lemma FilledAt(r: Rules, s: Store, blocks: seq<BlockData>, h: int, t: Store, g: int)
    requires GapFree(s) && 0 <= h <= s.height + 1 && StoredUpTo(r, s, blocks, h, |blocks|, t) && NoneSkipped(r, s, blocks, h)
    ensures g in t.blocks <==> 1 <= g <= t.height
  {
    hide StoredUpTo, Storable;
    StoredAt(r, s, blocks, h, t, g);
    StoredAt(r, s, blocks, h, t, t.height);
    if s.height < g < t.height { assert Storable(r, s, blocks, h, t.height - h) && New(s, h, g - h); }
  }

  lemma SkippedAt(r: Rules, s: Store, blocks: seq<BlockData>, h: int, t: Store) returns (g: int)
    requires GapFree(s) && 0 <= h <= s.height + 1 && StoredUpTo(r, s, blocks, h, |blocks|, t) && !NoneSkipped(r, s, blocks, h)
    ensures g in t.blocks <==> !(1 <= g <= t.height)
  {
    hide StoredUpTo, Storable;
    if h == 0 && blocks != [] && Storable(r, s, blocks, h, 0) {
      StoredAt(r, s, blocks, h, t, 0);
      g := 0;
    } else {
      var i, j :| 0 <= i < j < |blocks| && h + i >= 1 && New(s, h, i) && Storable(r, s, blocks, h, j) && !Storable(r, s, blocks, h, i);
      StoredAt(r, s, blocks, h, t, h + i);
      StoredAt(r, s, blocks, h, t, h + j);
      assert h + j - h == j && h + i - h == i;
      g := h + i;
    }
  }

  /** With new hashes throughout and from height 1 on: exactly when no genuine
      new block comes after one that is not genuine. */
  lemma GapFreeWithNewHashes(r: Rules, s: Store, blocks: seq<BlockData>)
    requires GapFree(s) && Contiguous(s, blocks) && FirstHeight(blocks) >= 1
    requires forall i :: 0 <= i < |blocks| && New(s, FirstHeight(blocks), i) ==> blocks[i].hash !in s.byHash
    requires forall i, j :: 0 <= i < j < |blocks| ==> blocks[i].hash != blocks[j].hash
    ensures GapFree(StoreAll(r, s, blocks)) <==>
      !exists i, j :: 0 <= i < j < |blocks| && New(s, FirstHeight(blocks), i) && !Genuine(r, blocks[i]) && Genuine(r, blocks[j])
  {
    hide Genuine, StoreAll, Contiguous;
    GapFreeExactly(r, s, blocks);
    var h := FirstHeight(blocks);
    FirstInReach(s, blocks);
    forall i | 0 <= i < |blocks| && New(s, h, i)
      ensures Storable(r, s, blocks, h, i) <==> Genuine(r, blocks[i]) { }
    assert forall i, j :: 0 <= i < j < |blocks| && New(s, h, i) ==> New(s, h, j);
  }

  lemma FirstInReach(s: Store, blocks: seq<BlockData>)
    requires GapFree(s) && Contiguous(s, blocks)
    ensures 0 <= FirstHeight(blocks) <= s.height + 1
  {
  }

  /** A response that passes the check and leaves a gap: block 1 does not hash
      as claimed, block 2 does. */
  lemma GapAfterRefusal()
    ensures var r := Rules(data => data, Some((h, hash, data) => true));
      var blocks := [BlockData(1, [0], [1]), BlockData(2, [2], [2])];
      var s := Empty(None);
      && GapFree(s) && Contiguous(s, blocks)
      && !GapFree(StoreAll(r, s, blocks)) && StoreAll(r, s, blocks).height == 2
  {
    var r := Rules(data => data, Some((h, hash, data) => true));
    var a, b := BlockData(1, [0], [1]), BlockData(2, [2], [2]);
    var s := Empty(None);
    assert [a, b][1..] == [b] && [b][1..] == [];
    assert StoreOne(r, s, a) == s;
    var t := StoreOne(r, s, b);
    assert StoreAll(r, s, [a, b]) == StoreAll(r, s, [b]) == StoreAll(r, t, []) == t;
    assert 1 !in t.blocks && t.height == 2;
  }
}
