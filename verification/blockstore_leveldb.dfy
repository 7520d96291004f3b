/** The key-value encoding of the block store and its refinement of the
    in-memory store, crash points included. */
module LevelDBStore {
  import opened Int64
  import opened Wrappers
  import opened Bytes
  import opened Pruning
  import opened MemoryStore

  type DB = map<seq<byte>, seq<byte>>

  // ----- keys and values

  const PREFIX_HEIGHT: seq<byte> := [72, 58]                          // H:
  const PREFIX_BLOCK: seq<byte> := [66, 58]                           // B:
  const KEY_META_HEIGHT: seq<byte> := [77, 58, 104, 101, 105, 103, 104, 116]  // M:height
  const KEY_META_BASE: seq<byte> := [77, 58, 98, 97, 115, 101]        // M:base
  const PREFIX_CERT: seq<byte> := [67, 58]                            // C:
  const PREFIX_CERT_ROUND: seq<byte> := [67, 82, 58]                  // CR:
  const PREFIX_CERT_HEIGHT: seq<byte> := [67, 72, 58]                 // CH:
  const PREFIX_BATCH: seq<byte> := [67, 66, 58]                       // CB:

  predicate IsHeight(h: int) {
    0 <= h <= MAX_INT64
  }

  function HeightKey(h: int): (k: seq<byte>)
    requires InRange(h)
    ensures |k| == 10 && k[0] == 72
  {
    PREFIX_HEIGHT + EncodeInt64(h)
  }

  function BlockKey(hash: Hash): (k: seq<byte>)
    ensures |k| == 2 + |hash| && k[0] == 66
  {
    PREFIX_BLOCK + hash
  }

  function BlockValue(h: int, data: seq<byte>): seq<byte>
    requires InRange(h)
  {
    EncodeInt64(h) + data
  }

  function ParseBlockValue(value: seq<byte>): (int, seq<byte>) {
    if |value| < 8 then (0, []) else (DecodeInt64(value[..8]), value[8..])
  }

  function CertKey(digest: seq<byte>): seq<byte> { PREFIX_CERT + digest }
  function BatchKey(digest: seq<byte>): seq<byte> { PREFIX_BATCH + digest }

  function CertRoundKey(round: nat, validator: nat): seq<byte> {
    PREFIX_CERT_ROUND + BigEndian(round, 8) + BigEndian(validator, 2)
  }

  function CertHeightKey(h: int, validator: nat): seq<byte>
    requires InRange(h)
  {
    PREFIX_CERT_HEIGHT + EncodeInt64(h) + BigEndian(validator, 2)
  }

  /** The height in a height key. */
  function KeyHeight(k: seq<byte>): int {
    if |k| < 2 then 0 else DecodeInt64(k[2..])
  }

  lemma HeightKeyDecodes(h: int)
    requires IsHeight(h)
    ensures KeyHeight(HeightKey(h)) == h
  {
    Int64RoundTrip(h, []);
    assert HeightKey(h)[2..] == EncodeInt64(h) + [];
  }

  /** Height keys sort bytewise as the heights sort. */
  lemma HeightKeyOrder(g: int, h: int)
    requires IsHeight(g) && IsHeight(h)
    ensures LexLess(HeightKey(g), HeightKey(h)) <==> g < h
    ensures HeightKey(g) == HeightKey(h) <==> g == h
  {
    Widths();
    BigEndianOrder(g, h, 8);
    LexPrefix(PREFIX_HEIGHT, EncodeInt64(g), EncodeInt64(h));
    HeightKeyDecodes(g);
    HeightKeyDecodes(h);
  }

  lemma BlockKeyInjective(x: Hash, y: Hash)
    ensures BlockKey(x) == BlockKey(y) <==> x == y
    ensures BlockKey(x)[0] == 66
  {
    assert BlockKey(x)[2..] == x && BlockKey(y)[2..] == y;
  }

  lemma BlockValueParses(h: int, data: seq<byte>)
    requires IsHeight(h)
    ensures ParseBlockValue(BlockValue(h, data)) == (h, data)
  {
    Int64RoundTrip(h, []);
    assert BlockValue(h, data)[..8] == EncodeInt64(h) + [];
  }

  /** No key of one family is a key of another, whatever the hashes, digests,
      heights, rounds and validators are. */
  lemma KeyFamiliesDisjoint(h: int, hash: Hash, digest: seq<byte>, batch: seq<byte>, round: nat, g: int, i: nat, j: nat)
    requires IsHeight(h) && InRange(g)
    ensures forall a, b :: 0 <= a < b < 8 ==>
      var keys := [HeightKey(h), BlockKey(hash), KEY_META_HEIGHT, KEY_META_BASE, CertKey(digest),
                   CertRoundKey(round, i), CertHeightKey(g, j), BatchKey(batch)];
      keys[a] != keys[b]
  {
    assert HeightKey(h)[0] == 72 && BlockKey(hash)[0] == 66 && KEY_META_HEIGHT[0] == KEY_META_BASE[0] == 77;
    assert CertKey(digest)[1] == 58 && CertRoundKey(round, i)[1] == 82 && CertHeightKey(g, j)[1] == 72 && BatchKey(batch)[1] == 66;
    assert CertKey(digest)[0] == CertRoundKey(round, i)[0] == CertHeightKey(g, j)[0] == BatchKey(batch)[0] == 67;
    assert KEY_META_HEIGHT[2] != KEY_META_BASE[2];
  }

  // ----- the store in the database

  function MetaHeight(d: DB): int {
    if KEY_META_HEIGHT in d then DecodeInt64(d[KEY_META_HEIGHT]) else 0
  }

  function MetaBase(d: DB): int {
    if KEY_META_BASE in d then DecodeInt64(d[KEY_META_BASE]) else 0
  }

  /** Keys that block operations neither read nor write: certificates and batches. */
  predicate Foreign(k: seq<byte>) {
    !(PREFIX_HEIGHT <= k) && !(PREFIX_BLOCK <= k) && k != KEY_META_HEIGHT && k != KEY_META_BASE
  }

  ghost predicate HeightsMatch(d: DB, m: Store) {
    && (forall h :: h in m.blocks ==> IsHeight(h))
    && (forall h :: IsHeight(h) ==> (HeightKey(h) in d <==> h in m.blocks))
    && (forall h :: h in m.blocks ==> d[HeightKey(h)] == m.blocks[h].hash)
    && (forall k :: k in d && PREFIX_HEIGHT <= k ==> exists h :: IsHeight(h) && k == HeightKey(h))
  }

  ghost predicate BlocksMatch(d: DB, m: Store) {
    && (forall x :: x in m.byHash ==> IsHeight(m.byHash[x]) && m.byHash[x] in m.blocks)
    && (forall x :: BlockKey(x) in d <==> x in m.byHash)
    && (forall x :: x in m.byHash ==> d[BlockKey(x)] == BlockValue(m.byHash[x], m.blocks[m.byHash[x]].data))
  }

  /** Reopening d and reading it back gives the in-memory store m. */
  ghost predicate Represents(d: DB, m: Store) {
    HeightsMatch(d, m) && BlocksMatch(d, m) && MetaHeight(d) == m.height && MetaBase(d) == m.base
  }

  /** What loadMetadata and the entries of a database must satisfy after a crash. */
  ghost predicate Consistent(d: DB) {
    && (forall h :: IsHeight(h) && HeightKey(h) in d ==>
          && MetaBase(d) <= h <= MetaHeight(d)
          && HeightKey(MetaHeight(d)) in d
          && BlockKey(d[HeightKey(h)]) in d
          && ParseBlockValue(d[BlockKey(d[HeightKey(h)])]).0 == h)
  }

  /** The height keys on disk are those of the stored heights; no negative height is there. */
  lemma HeightOnDisk(d: DB, m: Store, h: int)
    requires HeightsMatch(d, m) && InRange(h)
    ensures HeightKey(h) in d <==> h in m.blocks
  {
    if HeightKey(h) in d {
      var g :| IsHeight(g) && HeightKey(h) == HeightKey(g);
      assert HeightKey(h)[2..] == EncodeInt64(h) && HeightKey(g)[2..] == EncodeInt64(g);
      EncodeInt64Injective(h, g);
    }
  }

  lemma RepresentedIsConsistent(d: DB, m: Store)
    requires Represents(d, m) && WellFormed(m) && BaseBelow(m)
    ensures Consistent(d)
  {
    forall h | IsHeight(h) && HeightKey(h) in d
      ensures MetaBase(d) <= h <= MetaHeight(d) && HeightKey(MetaHeight(d)) in d
      ensures BlockKey(d[HeightKey(h)]) in d && ParseBlockValue(d[BlockKey(d[HeightKey(h)])]).0 == h
    {
      assert h in m.blocks;
      BlockValueParses(h, m.blocks[h].data);
    }
  }

  // ----- writes

  datatype Op = Put(key: seq<byte>, value: seq<byte>) | Delete(key: seq<byte>)

  function ApplyOp(d: DB, op: Op): DB {
    match op
    case Put(k, v) => d[k := v]
    case Delete(k) => d - {k}
  }

  function ApplyBatch(d: DB, batch: seq<Op>): DB {
    if batch == [] then d else ApplyOp(ApplyBatch(d, batch[..|batch| - 1]), batch[|batch| - 1])
  }

  lemma BatchAppend(d: DB, batch: seq<Op>, op: Op)
    ensures ApplyBatch(d, batch + [op]) == ApplyOp(ApplyBatch(d, batch), op)
  {
    assert (batch + [op])[..|batch|] == batch;
  }

  /** LevelDB itself: an ordered map with atomic batches. Every value it ever
      held after a write is in the history. */
  class Database {
    var data: DB
    ghost var history: seq<DB>

    constructor (d: DB)
      ensures data == d && history == []
    {
      data, history := d, [];
    }

    method Write(batch: seq<Op>)
      modifies this
      ensures data == ApplyBatch(old(data), batch)
      ensures history == old(history) + [data]
    {
      var d := data;
      for i := 0 to |batch|
        invariant d == ApplyBatch(data, batch[..i])
        invariant data == old(data) && history == old(history)
      {
        assert batch[..i + 1] == batch[..i] + [batch[i]];
        BatchAppend(data, batch[..i], batch[i]);
        d := ApplyOp(d, batch[i]);
      }
      assert batch[..|batch|] == batch;
      data := d;
      history := history + [d];
    }

    /** A range iterator: the keys in [start, limit), in key order, of the
        database as it is now. */
    method Scan(start: seq<byte>, limit: seq<byte>) returns (keys: seq<seq<byte>>)
      ensures forall k :: k in keys <==> k in data && LexLeq(start, k) && LexLess(k, limit)
      ensures forall i, j :: 0 <= i < j < |keys| ==> LexLess(keys[i], keys[j])
    {
      keys := InKeyOrder(set k | k in data && LexLeq(start, k) && LexLess(k, limit));
    }
  }

  method InKeyOrder(all: set<seq<byte>>) returns (keys: seq<seq<byte>>)
    ensures forall k :: k in keys <==> k in all
    ensures forall i, j :: 0 <= i < j < |keys| ==> LexLess(keys[i], keys[j])
  {
    keys := [];
    var todo := all;
    while todo != {}
      invariant todo <= all
      invariant forall k :: k in keys <==> k in all - todo
      invariant forall i, j :: 0 <= i < j < |keys| ==> LexLess(keys[i], keys[j])
      invariant forall i, k :: 0 <= i < |keys| && k in todo ==> LexLess(keys[i], k)
      decreases |todo|
    {
      var least := Least(todo);
      keys := keys + [least];
      todo := todo - {least};
    }
  }

  method Least(s: set<seq<byte>>) returns (least: seq<byte>)
    requires s != {}
    ensures least in s && forall k :: k in s && k != least ==> LexLess(least, k)
  {
    least :| least in s;
    var todo := s - {least};
    while todo != {}
      invariant todo <= s && least in s
      invariant forall k :: k in s - todo && k != least ==> LexLess(least, k)
      decreases |todo|
    {
      var k :| k in todo;
      var c := CompareKeys(k, least);
      if c < 0 {
        forall j | j in s - todo && j != k && j != least ensures LexLess(k, j) { LexTransitive(k, least, j); }
        least := k;
      } else {
        LexTrichotomy(k, least);
      }
      todo := todo - {k};
    }
  }

  // ----- saving

  datatype Disk = Disk(db: DB, height: int, base: int)

  function SaveOps(s: Disk, h: int, hash: Hash, data: seq<byte>): seq<Op>
    requires InRange(h)
  {
    [Put(HeightKey(h), hash), Put(BlockKey(hash), BlockValue(h, data))]
    + (if h > s.height then [Put(KEY_META_HEIGHT, EncodeInt64(h))] else [])
    + (if s.base == 0 || h < s.base then [Put(KEY_META_BASE, EncodeInt64(h))] else [])
  }

  /** The database after a save, whatever the hash. */
  function SaveDisk(s: Disk, h: int, hash: Hash, data: seq<byte>): Disk
    requires InRange(h)
  {
    if HeightKey(h) in s.db then s else
      Disk(ApplyBatch(s.db, SaveOps(s, h, hash, data)),
           if h > s.height then h else s.height,
           if s.base == 0 || h < s.base then h else s.base)
  }

  lemma SaveDiskIs(s: Disk, h: int, hash: Hash, data: seq<byte>)
    requires IsHeight(h)
    ensures var d1 := s.db[HeightKey(h) := hash][BlockKey(hash) := BlockValue(h, data)];
      var d2 := if h > s.height then d1[KEY_META_HEIGHT := EncodeInt64(h)] else d1;
      var d3 := if s.base == 0 || h < s.base then d2[KEY_META_BASE := EncodeInt64(h)] else d2;
      ApplyBatch(s.db, SaveOps(s, h, hash, data)) == d3
  {
    var b0 := [Put(HeightKey(h), hash)];
    var b1 := b0 + [Put(BlockKey(hash), BlockValue(h, data))];
    BatchAppend(s.db, [], b0[0]);
    assert [] + b0 == b0;
    BatchAppend(s.db, b0, Put(BlockKey(hash), BlockValue(h, data)));
    var b2 := b1 + (if h > s.height then [Put(KEY_META_HEIGHT, EncodeInt64(h))] else []);
    if h > s.height { BatchAppend(s.db, b1, Put(KEY_META_HEIGHT, EncodeInt64(h))); } else { assert b2 == b1; }
    var b3 := b2 + (if s.base == 0 || h < s.base then [Put(KEY_META_BASE, EncodeInt64(h))] else []);
    if s.base == 0 || h < s.base { BatchAppend(s.db, b2, Put(KEY_META_BASE, EncodeInt64(h))); } else { assert b3 == b2; }
    assert SaveOps(s, h, hash, data) == b3;
  }

  /** d is e outside the four keys a save can write. */
  ghost predicate SaveTouches(e: DB, d: DB, h: int, hash: Hash)
    requires IsHeight(h)
  {
    forall k :: k != HeightKey(h) && k != BlockKey(hash) && k != KEY_META_HEIGHT && k != KEY_META_BASE ==>
      (k in d <==> k in e) && (k in d ==> d[k] == e[k])
  }

  lemma SaveWrites(s: Disk, h: int, hash: Hash, data: seq<byte>)
    requires IsHeight(h) && HeightKey(h) !in s.db
    ensures var t := SaveDisk(s, h, hash, data);
      && SaveTouches(s.db, t.db, h, hash)
      && HeightKey(h) in t.db && t.db[HeightKey(h)] == hash
      && BlockKey(hash) in t.db && t.db[BlockKey(hash)] == BlockValue(h, data)
      && (MetaHeight(s.db) == s.height ==> MetaHeight(t.db) == t.height)
      && (MetaBase(s.db) == s.base ==> MetaBase(t.db) == t.base)
  {
    hide ApplyBatch, SaveOps, EncodeInt64;
    SaveDiskIs(s, h, hash, data);
    assert HeightKey(h)[0] == 72 && BlockKey(hash)[0] == 66;
    assert KEY_META_HEIGHT[0] == KEY_META_BASE[0] == 77 && KEY_META_HEIGHT[2] != KEY_META_BASE[2];
    Int64RoundTrip(h, []);
    assert EncodeInt64(h) + [] == EncodeInt64(h);
  }

  lemma SaveHeights(e: DB, d: DB, m: Store, h: int, hash: Hash, data: seq<byte>)
    requires IsHeight(h) && HeightsMatch(e, m) && CanSave(m, h, hash) && SaveTouches(e, d, h, hash)
    requires HeightKey(h) in d && d[HeightKey(h)] == hash
    ensures HeightsMatch(d, Save(m, h, hash, data))
  {
    hide HeightKey;
    var n := Save(m, h, hash, data);
    assert BlockKey(hash)[0] == 66 && KEY_META_HEIGHT[0] == KEY_META_BASE[0] == 77;
    forall g | IsHeight(g) ensures HeightKey(g) in d <==> g in n.blocks {
      HeightKeyOrder(g, h);
      assert HeightKey(g)[0] == 72;
    }
    forall g | g in n.blocks ensures IsHeight(g) && d[HeightKey(g)] == n.blocks[g].hash {
      if g != h { HeightKeyOrder(g, h); }
      assert HeightKey(g)[0] == 72;
    }
    forall k | k in d && PREFIX_HEIGHT <= k ensures exists g :: IsHeight(g) && k == HeightKey(g) {
      assert k[0] == 72;
      if k == HeightKey(h) { } else { assert k in e; }
    }
  }

  lemma SaveBlockAt(e: DB, d: DB, m: Store, h: int, hash: Hash, data: seq<byte>, x: Hash)
    requires IsHeight(h) && BlocksMatch(e, m) && CanSave(m, h, hash) && SaveTouches(e, d, h, hash)
    requires BlockKey(hash) in d && d[BlockKey(hash)] == BlockValue(h, data)
    ensures var n := Save(m, h, hash, data);
      && (BlockKey(x) in d <==> x in n.byHash)
      && (x in n.byHash ==>
            && IsHeight(n.byHash[x]) && n.byHash[x] in n.blocks
            && d[BlockKey(x)] == BlockValue(n.byHash[x], n.blocks[n.byHash[x]].data))
  {
    hide HeightKey, BlockKey, BlockValue;
    BlockKeyInjective(x, hash);
    assert HeightKey(h)[0] == 72 && KEY_META_HEIGHT[0] == KEY_META_BASE[0] == 77;
    if x != hash {
      assert BlockKey(x) in d <==> BlockKey(x) in e;
      assert x in m.byHash ==> m.byHash[x] != h;
    }
  }

  lemma SaveBlocks(e: DB, d: DB, m: Store, h: int, hash: Hash, data: seq<byte>)
    requires IsHeight(h) && BlocksMatch(e, m) && CanSave(m, h, hash) && SaveTouches(e, d, h, hash)
    requires BlockKey(hash) in d && d[BlockKey(hash)] == BlockValue(h, data)
    ensures BlocksMatch(d, Save(m, h, hash, data))
  {
    hide HeightKey, BlockKey, BlockValue, SaveTouches, Save;
    forall x {:trigger BlockKey(x)} {:trigger x in Save(m, h, hash, data).byHash}
      ensures var n := Save(m, h, hash, data);
        && (BlockKey(x) in d <==> x in n.byHash)
        && (x in n.byHash ==>
              && IsHeight(n.byHash[x]) && n.byHash[x] in n.blocks
              && d[BlockKey(x)] == BlockValue(n.byHash[x], n.blocks[n.byHash[x]].data))
    {
      SaveBlockAt(e, d, m, h, hash, data, x);
    }
  }

  /** Certificates, batches and whatever else is in the database stay as they are. */
  ghost predicate ForeignKept(e: DB, d: DB) {
    forall k :: Foreign(k) ==> (k in d <==> k in e) && (k in d ==> d[k] == e[k])
  }

  ghost predicate DiskRepresents(s: Disk, m: Store) {
    Represents(s.db, m) && s.height == m.height && s.base == m.base
  }

  /** One save on the database and one on the maps give the same answer and
      related states exactly when the height is taken or the hash is not. */
  lemma SaveRefinesExactly(s: Disk, m: Store, h: int, hash: Hash, data: seq<byte>)
    requires IsHeight(h) && DiskRepresents(s, m)
    ensures ForeignKept(s.db, SaveDisk(s, h, hash, data).db)
    ensures
      (HeightKey(h) !in s.db <==> CanSave(m, h, hash)) && DiskRepresents(SaveDisk(s, h, hash, data), Save(m, h, hash, data))
      <==> h in m.blocks || hash !in m.byHash
  {
    hide ApplyBatch, SaveOps, BlockKey, Represents;
    assert HeightKey(h) in s.db <==> h in m.blocks by { assert Represents(s.db, m); RepresentsHeights(s.db, m, h); }
    if h !in m.blocks {
      SaveForeign(s, h, hash, data);
      if hash !in m.byHash { SaveFresh(s, m, h, hash, data); }
    }
  }

  lemma RepresentsHeights(d: DB, m: Store, h: int)
    requires Represents(d, m) && IsHeight(h)
    ensures HeightKey(h) in d <==> h in m.blocks
  {
  }

  lemma SaveForeign(s: Disk, h: int, hash: Hash, data: seq<byte>)
    requires IsHeight(h) && HeightKey(h) !in s.db
    ensures ForeignKept(s.db, SaveDisk(s, h, hash, data).db)
  {
    hide SaveDisk, BlockValue;
    SaveWrites(s, h, hash, data);
    assert PREFIX_HEIGHT <= HeightKey(h) && PREFIX_BLOCK <= BlockKey(hash);
  }

  lemma SaveFresh(s: Disk, m: Store, h: int, hash: Hash, data: seq<byte>)
    requires IsHeight(h) && DiskRepresents(s, m) && CanSave(m, h, hash)
    ensures DiskRepresents(SaveDisk(s, h, hash, data), Save(m, h, hash, data))
  {
    hide ApplyBatch, SaveOps, HeightKey, BlockKey, BlockValue, HeightsMatch, BlocksMatch, SaveTouches;
    RepresentsHeights(s.db, m, h);
    SaveWrites(s, h, hash, data);
    SaveHeights(s.db, SaveDisk(s, h, hash, data).db, m, h, hash, data);
    SaveBlocks(s.db, SaveDisk(s, h, hash, data).db, m, h, hash, data);
  }

  // ----- pruning

  /** The two keys of every block at the heights in gone. */
  ghost function GoneKeys(m: Store, gone: set<int>): set<seq<byte>>
    requires forall h :: h in gone ==> h in m.blocks && IsHeight(h)
  {
    (set h | h in gone && IsHeight(h) :: HeightKey(h)) + (set h | h in gone :: BlockKey(m.blocks[h].hash))
  }

  lemma GoneKeysAdd(m: Store, gone: set<int>, h: int)
    requires forall g :: g in gone ==> g in m.blocks && IsHeight(g)
    requires h in m.blocks && IsHeight(h)
    ensures GoneKeys(m, gone + {h}) == GoneKeys(m, gone) + {HeightKey(h), BlockKey(m.blocks[h].hash)}
  {
    hide HeightKey, BlockKey;
    assert h in gone + {h};
  }

  lemma GoneKeysAre(m: Store, gone: set<int>, h: int, x: Hash)
    requires forall g :: g in gone ==> g in m.blocks && IsHeight(g)
    requires Indexed(m) && IsHeight(h)
    ensures HeightKey(h) in GoneKeys(m, gone) <==> h in gone
    ensures BlockKey(x) in GoneKeys(m, gone) <==> x in m.byHash && m.byHash[x] in gone
    ensures KEY_META_HEIGHT !in GoneKeys(m, gone) && KEY_META_BASE !in GoneKeys(m, gone)
  {
    hide HeightKey, BlockKey;
    var hs, bs := set g | g in gone :: HeightKey(g), set g | g in gone :: BlockKey(m.blocks[g].hash);
    assert forall k :: k in hs ==> k[0] == 72;
    assert forall k :: k in bs ==> k[0] == 66;
    assert KEY_META_HEIGHT[0] == KEY_META_BASE[0] == 77;
    if HeightKey(h) in hs {
      var g :| g in gone && HeightKey(g) == HeightKey(h);
      HeightKeyOrder(g, h);
    }
    if BlockKey(x) in bs {
      var g :| g in gone && BlockKey(m.blocks[g].hash) == BlockKey(x);
      BlockKeyInjective(m.blocks[g].hash, x);
    }
    if x in m.byHash && m.byHash[x] in gone {
      var g := m.byHash[x];
      assert m.blocks[g].hash == x;
      assert BlockKey(m.blocks[g].hash) in bs;
    }
  }

  /** Deleting both keys of some blocks deletes those blocks from the store. */
  lemma WithoutHeights(d: DB, m: Store, gone: set<int>)
    requires HeightsMatch(d, m) && Indexed(m)
    requires forall h :: h in gone ==> h in m.blocks
    ensures HeightsMatch(d - GoneKeys(m, gone), Without(m, gone))
  {
    hide HeightKey, BlockKey, GoneKeys;
    forall h | IsHeight(h) ensures HeightKey(h) in GoneKeys(m, gone) <==> h in gone { GoneKeysAre(m, gone, h, []); }
  }

  lemma WithoutBlocks(d: DB, m: Store, gone: set<int>)
    requires HeightsMatch(d, m) && BlocksMatch(d, m) && Indexed(m)
    requires forall h :: h in gone ==> h in m.blocks
    ensures BlocksMatch(d - GoneKeys(m, gone), Without(m, gone))
  {
    hide HeightKey, BlockKey, GoneKeys, BlockValue;
    forall x ensures BlockKey(x) in GoneKeys(m, gone) <==> x in m.byHash && m.byHash[x] in gone { GoneKeysAre(m, gone, 0, x); }
  }

  lemma WithoutRepresents(d: DB, m: Store, gone: set<int>)
    requires Represents(d, m) && Indexed(m)
    requires forall h :: h in gone ==> h in m.blocks
    ensures Represents(d - GoneKeys(m, gone), Without(m, gone))
  {
    hide HeightsMatch, BlocksMatch, HeightKey, BlockKey;
    HeightsAreHeights(d, m);
    WithoutHeights(d, m, gone);
    WithoutBlocks(d, m, gone);
    GoneKeysAre(m, gone, 0, []);
  }

  lemma HeightsAreHeights(d: DB, m: Store)
    requires HeightsMatch(d, m)
    ensures forall h :: h in m.blocks ==> IsHeight(h)
  {
  }

  lemma RemovableStored(m: Store, lo: int, hi: int)
    ensures forall h :: h in Removable(m, lo, hi) ==> h in m.blocks
  {
  }

  lemma BaseMetaRepresents(d: DB, m: Store, base: int)
    requires Represents(d, m) && IsHeight(base)
    ensures Represents(d[KEY_META_BASE := EncodeInt64(base)], m.(base := base))
  {
    hide HeightKey, BlockKey, EncodeInt64, HeightsMatch, BlocksMatch;
    Int64RoundTrip(base, []);
    assert EncodeInt64(base) + [] == EncodeInt64(base);
    assert KEY_META_BASE[2] != KEY_META_HEIGHT[2];
    BaseMetaHeights(d, m, base, EncodeInt64(base));
    BaseMetaBlocks(d, m, base, EncodeInt64(base));
  }

  lemma BaseMetaHeights(d: DB, m: Store, base: int, v: seq<byte>)
    requires HeightsMatch(d, m)
    ensures HeightsMatch(d[KEY_META_BASE := v], m.(base := base))
  {
    hide HeightKey;
    assert KEY_META_BASE[0] == 77 && PREFIX_HEIGHT[0] == 72;
  }

  lemma BaseMetaBlocks(d: DB, m: Store, base: int, v: seq<byte>)
    requires BlocksMatch(d, m)
    ensures BlocksMatch(d[KEY_META_BASE := v], m.(base := base))
  {
    hide BlockKey, BlockValue;
    assert KEY_META_BASE[0] == 77;
  }

  /** Everything a prune to `before` may leave on disk at any moment: the
      removable blocks below some cut are gone and Base is still the old one,
      or the prune is finished. */
  ghost predicate PruneMoment(m: Store, before: int, d: DB) {
    || (exists cut :: m.base <= cut <= before && Represents(d, Without(m, Removable(m, m.base, cut))))
    || Represents(d, Prune(m, before).0)
  }

  /** Every database state written since `before` is a prune moment. */
  ghost predicate NewMoments(m: Store, before: int, past: seq<DB>, now: seq<DB>) {
    past <= now && forall i :: |past| <= i < |now| ==> PruneMoment(m, before, now[i])
  }

  lemma NoNewMoments(m: Store, before: int, now: seq<DB>)
    ensures NewMoments(m, before, now, now)
  {
  }

  lemma MomentAdded(m: Store, before: int, past: seq<DB>, now: seq<DB>, d: DB)
    requires NewMoments(m, before, past, now) && PruneMoment(m, before, d)
    ensures NewMoments(m, before, past, now + [d])
  {
    hide PruneMoment;
  }

  /** At every such moment a crash leaves a consistent database. */
  lemma PruneMomentConsistent(m: Store, before: int, d: DB)
    requires WellFormed(m) && BaseBelow(m) && 0 < before <= m.height && PruneMoment(m, before, d)
    ensures Consistent(d)
    ensures exists n :: WellFormed(n) && BaseBelow(n) && Represents(d, n)
  {
    hide Represents, Without, Removable;
    assert m.blocks != map[];
    if Represents(d, Prune(m, before).0) {
      PruneKeepsWellFormed(m, before);
      RepresentedIsConsistent(d, Prune(m, before).0);
    } else {
      var cut :| m.base <= cut <= before && Represents(d, Without(m, Removable(m, m.base, cut)));
      PartialPruneWellFormed(m, cut);
      RepresentedIsConsistent(d, Without(m, Removable(m, m.base, cut)));
    }
  }

  /** A stretch without stored blocks adds nothing to a prune. */
  lemma {:induction false} GapStep(m: Store, lo: int, cut: int, h: int)
    requires lo <= cut <= h && forall g :: cut <= g < h ==> g !in m.blocks
    ensures Removable(m, lo, h) == Removable(m, lo, cut)
    ensures LowestKept(m, lo, h) == if LowestKept(m, lo, cut) < cut then LowestKept(m, lo, cut) else h
    decreases h - cut
  {
    LowestKeptSplits(m, lo, cut, h);
    NothingKept(m, cut, h);
  }

  lemma {:induction false} NothingKept(m: Store, lo: int, hi: int)
    requires lo <= hi && forall g :: lo <= g < hi ==> g !in m.blocks
    ensures LowestKept(m, lo, hi) == hi
    decreases hi - lo
  {
    if lo < hi { NothingKept(m, lo + 1, hi); }
  }

  /** The keys of a scan are the height keys of the stored heights in range. */
  ghost predicate ScansHeights(m: Store, keys: seq<seq<byte>>, base: int, before: int) {
    && (forall i :: 0 <= i < |keys| ==>
          var h := KeyHeight(keys[i]);
          IsHeight(h) && keys[i] == HeightKey(h) && h in m.blocks && base <= h < before)
    && (forall h :: h in m.blocks && base <= h < before ==> IsHeight(h) && HeightKey(h) in keys)
    && (forall i, j :: 0 <= i < j < |keys| ==> KeyHeight(keys[i]) < KeyHeight(keys[j]))
  }

  lemma ScanKeyIsHeight(d: DB, m: Store, k: seq<byte>, base: int, before: int)
    requires HeightsMatch(d, m) && IsHeight(base) && IsHeight(before)
    requires k in d && LexLeq(HeightKey(base), k) && LexLess(k, HeightKey(before))
    ensures var h := KeyHeight(k); IsHeight(h) && k == HeightKey(h) && h in m.blocks && base <= h < before
  {
    BetweenSharesPrefix(PREFIX_HEIGHT, EncodeInt64(base), EncodeInt64(before), k);
    var h :| IsHeight(h) && k == HeightKey(h);
    HeightKeyDecodes(h);
    HeightKeyOrder(base, h);
    HeightKeyOrder(h, before);
  }

  lemma ScanIsHeights(d: DB, m: Store, keys: seq<seq<byte>>, base: int, before: int)
    requires HeightsMatch(d, m) && IsHeight(base) && IsHeight(before)
    requires forall k :: k in keys <==> k in d && LexLeq(HeightKey(base), k) && LexLess(k, HeightKey(before))
    requires forall i, j :: 0 <= i < j < |keys| ==> LexLess(keys[i], keys[j])
    ensures ScansHeights(m, keys, base, before)
  {
    forall k | k in keys
      ensures var h := KeyHeight(k); IsHeight(h) && k == HeightKey(h) && h in m.blocks && base <= h < before
    {
      ScanKeyIsHeight(d, m, k, base, before);
    }
    forall h | h in m.blocks && base <= h < before ensures HeightKey(h) in keys {
      HeightKeyOrder(base, h);
      HeightKeyOrder(h, before);
    }
    forall i, j | 0 <= i < j < |keys| ensures KeyHeight(keys[i]) < KeyHeight(keys[j]) {
      assert keys[i] in keys && keys[j] in keys;
      HeightKeyOrder(KeyHeight(keys[i]), KeyHeight(keys[j]));
    }
  }

  /** Where a prune stands after visiting some scanned keys: below `cut`
      everything removable is deleted or waits in the batch. */
  ghost predicate PruneAt(m: Store, d0: DB, d: DB, batch: seq<Op>, cut: int, before: int, count: int, newBase: int)
    requires HeightsMatch(d0, m)
  {
    && m.base <= cut <= before
    && ApplyBatch(d, batch) == d0 - GoneKeys(m, Removable(m, m.base, cut))
    && count == |Removable(m, m.base, cut)|
    && newBase == if LowestKept(m, m.base, cut) < cut then LowestKept(m, m.base, cut) else before
  }

  lemma VisitKept(m: Store, d0: DB, d: DB, batch: seq<Op>, cut: int, before: int, count: int, newBase: int, h: int)
    requires HeightsMatch(d0, m) && Indexed(m) && PruneAt(m, d0, d, batch, cut, before, count, newBase)
    requires cut <= h < before && h in m.blocks && Protected(m.cfg, h, m.height)
    requires forall g :: cut <= g < h ==> g !in m.blocks
    ensures PruneAt(m, d0, d, batch, h + 1, before, count, if h < newBase then h else newBase)
  {
    hide Removable, LowestKept, GoneKeys, ApplyBatch, Without;
    GapStep(m, m.base, cut, h);
    PruneStep(m, m.base, h);
  }

  lemma VisitRemoved(m: Store, d0: DB, d: DB, batch: seq<Op>, cut: int, before: int, count: int, newBase: int, h: int)
    requires HeightsMatch(d0, m) && Indexed(m) && PruneAt(m, d0, d, batch, cut, before, count, newBase)
    requires cut <= h < before && h in m.blocks && !Protected(m.cfg, h, m.height)
    requires forall g :: cut <= g < h ==> g !in m.blocks
    ensures PruneAt(m, d0, d, batch + [Delete(HeightKey(h)), Delete(BlockKey(m.blocks[h].hash))],
                    h + 1, before, count + 1, newBase)
  {
    hide Removable, LowestKept, GoneKeys, ApplyBatch, Without, HeightKey, BlockKey, HeightsMatch, Indexed;
    GapStep(m, m.base, cut, h);
    PruneStep(m, m.base, h);
    HeightsAreHeights(d0, m);
    RemovableStored(m, m.base, h);
    var gone, key := Removable(m, m.base, h), BlockKey(m.blocks[h].hash);
    GoneKeysAdd(m, gone, h);
    BatchAppend(d, batch, Delete(HeightKey(h)));
    BatchAppend(d, batch + [Delete(HeightKey(h))], Delete(key));
    assert batch + [Delete(HeightKey(h)), Delete(key)] == batch + [Delete(HeightKey(h))] + [Delete(key)];
    assert d0 - GoneKeys(m, gone) - {HeightKey(h)} - {key} == d0 - (GoneKeys(m, gone) + {HeightKey(h), key});
  }

  /** Once everything gathered so far is written, the database is a prune moment. */
  lemma WrittenIsMoment(m: Store, d0: DB, d: DB, cut: int, before: int, count: int, newBase: int)
    requires Represents(d0, m) && HeightsMatch(d0, m) && Indexed(m) && PruneAt(m, d0, d, [], cut, before, count, newBase)
    ensures PruneMoment(m, before, d)
    ensures count == |Removable(m, m.base, cut)|
    ensures Represents(d, Without(m, Removable(m, m.base, cut)))
    ensures ForeignKept(d0, d)
  {
    hide Represents, LowestKept, GoneKeys;
    WithoutRepresents(d0, m, Removable(m, m.base, cut));
    HeightsAreHeights(d0, m);
    GoneKeysNotForeign(m, Removable(m, m.base, cut));
  }

  lemma GoneKeysNotForeign(m: Store, gone: set<int>)
    requires forall g :: g in gone ==> g in m.blocks && IsHeight(g)
    ensures forall k :: k in GoneKeys(m, gone) ==> !Foreign(k)
  {
    forall g | g in gone ensures PREFIX_HEIGHT <= HeightKey(g) && PREFIX_BLOCK <= BlockKey(m.blocks[g].hash) { }
  }

  lemma VisitedAll(m: Store, d0: DB, d: DB, batch: seq<Op>, cut: int, before: int, count: int, newBase: int)
    requires HeightsMatch(d0, m) && PruneAt(m, d0, d, batch, cut, before, count, newBase)
    requires forall g :: cut <= g < before ==> g !in m.blocks
    ensures PruneAt(m, d0, d, batch, before, before, count, newBase)
    ensures newBase == LowestKept(m, m.base, before)
  {
    hide Removable, LowestKept, GoneKeys, ApplyBatch;
    GapStep(m, m.base, cut, before);
    LowestKeptRange(m, m.base, before);
  }

  const MAX_BATCH_SIZE := 1000

  class LevelDBBlockStore {
    const db: Database
    var height: int
    var base: int
    var pruneCfg: Option<PruneConfig>
    ghost var model: Store

    function OnDisk(): Disk
      reads this, db
    {
      Disk(db.data, height, base)
    }

    /** The store answers as the in-memory store `model` does. */
    ghost predicate Valid()
      reads this, db
    {
      DiskRepresents(OnDisk(), model) && WellFormed(model) && model.cfg == pruneCfg
    }

    /** Opens a database that some in-memory store describes: a new one, or
        whatever a crash left. */
    constructor Open(db: Database, cfg: Option<PruneConfig>, ghost m: Store)
      requires Represents(db.data, m) && WellFormed(m) && m.cfg == cfg
      ensures Valid() && this.db == db && model == m
    {
      this.db := db;
      height := MetaHeight(db.data);
      base := MetaBase(db.data);
      pruneCfg := cfg;
      model := m;
    }

    /** Any height and hash. With a height that is not negative and a hash that
        is new, or a height that is taken, the answer and the state are those of
        the in-memory store. */
    method SaveBlock(h: int, hash: Hash, data: seq<byte>) returns (ok: bool)
      requires InRange(h)
      modifies this, db
      ensures OnDisk() == SaveDisk(old(OnDisk()), h, hash, data) && pruneCfg == old(pruneCfg)
      ensures ok <==> HeightKey(h) !in old(db.data)
      ensures db.history == old(db.history) + (if ok then [db.data] else [])
      ensures old(Valid()) && IsHeight(h) && (h in old(model).blocks || hash !in old(model).byHash) ==>
        && Valid() && model == Save(old(model), h, hash, data)
        && (ok <==> CanSave(old(model), h, hash))
        && ForeignKept(old(db.data), db.data)
        && (old(BaseBelow(model)) && h >= 1 ==> BaseBelow(model) && Consistent(db.data))
    {
      hide HeightKey, BlockKey, BlockValue, EncodeInt64, ApplyBatch, WellFormed, BaseBelow, Consistent, ForeignKept, DiskRepresents, Save, CanSave;
      ghost var before, m := OnDisk(), model;
      var key := HeightKey(h);
      if key in db.data {
        ok := false;
      } else {
        var batch := [Put(key, hash), Put(BlockKey(hash), BlockValue(h, data))];
        if h > height { batch := batch + [Put(KEY_META_HEIGHT, EncodeInt64(h))]; }
        if base == 0 || h < base { batch := batch + [Put(KEY_META_BASE, EncodeInt64(h))]; }
        assert batch == SaveOps(before, h, hash, data);
        db.Write(batch);
        if h > height { height := h; }
        if base == 0 || h < base { base := h; }
        ok := true;
      }
      model := Save(model, h, hash, data);
      if IsHeight(h) { SaveOutcome(before, m, h, hash, data, pruneCfg); }
    }

    method LoadBlock(h: int) returns (r: Option<Entry>)
      requires Valid() && InRange(h)
      ensures r == Load(model, h)
    {
      HeightOnDisk(db.data, model, h);
      if HeightKey(h) !in db.data { return None; }
      var hash := db.data[HeightKey(h)];
      assert h in model.blocks && hash in model.byHash;
      if BlockKey(hash) !in db.data { return None; }
      var (_, data) := ParseBlockValue(db.data[BlockKey(hash)]);
      BlockValueParses(h, model.blocks[h].data);
      return Some(Entry(hash, data));
    }

    method LoadBlockByHash(hash: Hash) returns (r: Option<(int, seq<byte>)>)
      requires Valid()
      ensures r == LoadByHash(model, hash)
    {
      if BlockKey(hash) !in db.data { return None; }
      assert hash in model.byHash;
      BlockValueParses(model.byHash[hash], model.blocks[model.byHash[hash]].data);
      return Some(ParseBlockValue(db.data[BlockKey(hash)]));
    }

    method HasBlock(h: int) returns (r: bool)
      requires Valid() && InRange(h)
      ensures r <==> h in model.blocks
    {
      HeightOnDisk(db.data, model, h);
      return HeightKey(h) in db.data;
    }

    /** Gives the in-memory store's answer and new state, and every database
        state it passes through is a prune moment. */
    method PruneBlocks(before: int) returns (r: PruneOutcome)
      requires Valid()
      modifies this, db
      ensures Valid() && (model, r) == Prune(old(model), before)
      ensures NewMoments(old(model), before, old(db.history), db.history)
      ensures ForeignKept(old(db.data), db.data)
    {
      hide Represents, Removable, LowestKept, Without, Indexed, PruneMoment, BaseBelow, ApplyBatch, EncodeInt64;
      if before <= 0 { return InvalidPruneHeight; }
      if before > height { return PruneHeightTooHigh; }
      if base >= before { return Pruned(0, base); }
      ghost var m := model;
      var count, newBase := DeleteRange(before);
      FinishPrune(db.data, m, before, newBase);
      if newBase > base {
        db.Write([Put(KEY_META_BASE, EncodeInt64(newBase))]);
        base := newBase;
        FinishedIsMoment(m, before, db.data);
      }
      model := Prune(m, before).0;
      PruneKeepsWellFormed(m, before);
      PruneLeaves(m, before);
      return Pruned(count, base);
    }

    /** The iteration of Prune: deletes in batches, leaves Base alone. */
    method DeleteRange(before: int) returns (count: int, newBase: int)
      requires Represents(db.data, model) && Indexed(model)
      requires model.base == base && model.height == height && model.cfg == pruneCfg
      requires IsHeight(base) && IsHeight(before) && base < before
      modifies db
      ensures Represents(db.data, Without(model, Removable(model, model.base, before)))
      ensures count == |Removable(model, model.base, before)| && newBase == LowestKept(model, model.base, before)
      ensures NewMoments(model, before, old(db.history), db.history)
      ensures ForeignKept(old(db.data), db.data)
    {
      hide *;
      RepresentsParts(db.data, model);
      NoNewMoments(model, before, db.history);
      ghost var m, d0 := model, db.data;
      var snapshot := db.data;
      var keys := ScanHeights(before);
      var batch: seq<Op>, batchSize: nat := [], 0;
      count, newBase := 0, before;
      ghost var cut := base;
      StartPrune(d0, m, before);
      for i := 0 to |keys|
        invariant PruneAt(m, d0, db.data, batch, cut, before, count, newBase)
        invariant cut == if i == 0 then base else KeyHeight(keys[i - 1]) + 1
        invariant batchSize == 0 ==> batch == []
        invariant NewMoments(m, before, old(db.history), db.history)
      {
        var h := KeyHeight(keys[i]);
        NoneBetween(m, keys, base, before, i, cut);
        HashOnDisk(d0, m, h);
        batch, batchSize, count, newBase :=
          Visit(keys[i], snapshot[keys[i]], h, batch, batchSize, count, newBase, d0, cut, before, old(db.history));
        cut := h + 1;
      }
      NoneBetween(m, keys, base, before, |keys|, cut);
      VisitedAll(m, d0, db.data, batch, cut, before, count, newBase);
      if batchSize > 0 {
        ghost var past := db.history;
        Flush(batch, d0, before, before, count, newBase);
        MomentAdded(m, before, old(db.history), past, db.data);
      }
      WrittenIsMoment(m, d0, db.data, before, before, count, newBase);
    }

    method ScanHeights(before: int) returns (keys: seq<seq<byte>>)
      requires HeightsMatch(db.data, model) && IsHeight(base) && IsHeight(before)
      ensures ScansHeights(model, keys, base, before)
    {
      hide HeightKey, HeightsMatch, ScansHeights, LexLess, LexLeq;
      keys := db.Scan(HeightKey(base), HeightKey(before));
      ScanIsHeights(db.data, model, keys, base, before);
    }

    /** One iteration: keeps the block or queues its two deletions, and writes a full batch. */
    method Visit(key: seq<byte>, hash: Hash, h: int, batch: seq<Op>, batchSize: nat, count: int, newBase: int,
                 ghost d0: DB, ghost cut: int, ghost before: int, ghost past: seq<DB>)
      returns (batch': seq<Op>, batchSize': nat, count': int, newBase': int)
      requires Represents(d0, model) && HeightsMatch(d0, model) && Indexed(model)
      requires model.height == height && model.cfg == pruneCfg
      requires cut <= h < before && h in model.blocks && IsHeight(h)
      requires key == HeightKey(h) && hash == model.blocks[h].hash
      requires forall g :: cut <= g < h ==> g !in model.blocks
      requires PruneAt(model, d0, db.data, batch, cut, before, count, newBase)
      requires batchSize == 0 ==> batch == []
      requires NewMoments(model, before, past, db.history)
      modifies db
      ensures PruneAt(model, d0, db.data, batch', h + 1, before, count', newBase')
      ensures batchSize' == 0 ==> batch' == []
      ensures NewMoments(model, before, past, db.history)
    {
      hide Represents, Indexed, PruneMoment, HeightKey, BlockKey, HeightsMatch, PruneAt, Protected;
      batch', batchSize', count', newBase' := batch, batchSize, count, newBase;
      if Protected(pruneCfg, h, height) {
        VisitKept(model, d0, db.data, batch, cut, before, count, newBase, h);
        if h < newBase { newBase' := h; }
        return;
      }
      VisitRemoved(model, d0, db.data, batch, cut, before, count, newBase, h);
      batch' := batch + [Delete(key), Delete(BlockKey(hash))];
      count', batchSize' := count + 1, batchSize + 1;
      if batchSize' >= MAX_BATCH_SIZE {
        Flush(batch', d0, h + 1, before, count', newBase);
        batch', batchSize' := [], 0;
      }
    }

    method Flush(batch: seq<Op>, ghost d0: DB, ghost cut: int, ghost before: int, ghost count: int, ghost newBase: int)
      requires Represents(d0, model) && HeightsMatch(d0, model) && Indexed(model)
      requires PruneAt(model, d0, db.data, batch, cut, before, count, newBase)
      modifies db
      ensures PruneAt(model, d0, db.data, [], cut, before, count, newBase)
      ensures db.history == old(db.history) + [db.data] && PruneMoment(model, before, db.data)
    {
      hide Represents, Removable, LowestKept, GoneKeys, Without, PruneMoment, HeightsMatch, Indexed;
      db.Write(batch);
      WrittenIsMoment(model, d0, db.data, cut, before, count, newBase);
    }
  }

  lemma RepresentsParts(d: DB, m: Store)
    requires Represents(d, m)
    ensures HeightsMatch(d, m) && BlocksMatch(d, m) && MetaHeight(d) == m.height && MetaBase(d) == m.base
  {
  }

  lemma StartPrune(d0: DB, m: Store, before: int)
    requires HeightsMatch(d0, m) && m.base < before
    ensures PruneAt(m, d0, d0, [], m.base, before, 0, before)
  {
    hide HeightKey, BlockKey;
    assert Removable(m, m.base, m.base) == {};
    assert GoneKeys(m, {}) == {};
    assert d0 - {} == d0;
  }

  /** Between the last visited key and the next one no block is stored. */
  lemma NoneBetween(m: Store, keys: seq<seq<byte>>, base: int, before: int, i: nat, cut: int)
    requires ScansHeights(m, keys, base, before) && i <= |keys|
    requires cut == if i == 0 then base else KeyHeight(keys[i - 1]) + 1
    ensures i < |keys| ==>
      var h := KeyHeight(keys[i]); cut <= h < before && h in m.blocks && IsHeight(h) && keys[i] == HeightKey(h)
    ensures forall g :: cut <= g < (if i < |keys| then KeyHeight(keys[i]) else before) ==> g !in m.blocks
  {
    forall g | cut <= g < (if i < |keys| then KeyHeight(keys[i]) else before) ensures g !in m.blocks {
      if g in m.blocks && base <= g {
        var j :| 0 <= j < |keys| && keys[j] == HeightKey(g);
        HeightKeyDecodes(g);
      }
    }
  }

  lemma FinishPrune(d: DB, m: Store, before: int, newBase: int)
    requires WellFormed(m) && 0 < before <= m.height && m.base < before && newBase == LowestKept(m, m.base, before)
    requires Represents(d, Without(m, Removable(m, m.base, before)))
    ensures m.base <= newBase
    ensures newBase == m.base ==> Represents(d, Prune(m, before).0)
    ensures ForeignKept(d, ApplyBatch(d, [Put(KEY_META_BASE, EncodeInt64(newBase))]))
    ensures newBase > m.base ==> Represents(ApplyBatch(d, [Put(KEY_META_BASE, EncodeInt64(newBase))]), Prune(m, before).0)
  {
    hide Represents, Removable, Without;
    LowestKeptRange(m, m.base, before);
    BaseMetaRepresents(d, Without(m, Removable(m, m.base, before)), newBase);
    var op := Put(KEY_META_BASE, EncodeInt64(newBase));
    BatchAppend(d, [], op);
    assert [] + [op] == [op];
    WithoutBase(m, Removable(m, m.base, before));
  }

  lemma FinishedIsMoment(m: Store, before: int, d: DB)
    requires Represents(d, Prune(m, before).0)
    ensures PruneMoment(m, before, d)
  {
    hide Represents;
  }

  lemma PruneLeaves(m: Store, before: int)
    requires 0 < before <= m.height && m.base < before
    ensures var n := Prune(m, before).0;
      n.height == m.height && n.cfg == m.cfg && n.base == LowestKept(m, m.base, before)
  {
  }

  lemma HashOnDisk(d: DB, m: Store, h: int)
    requires HeightsMatch(d, m) && h in m.blocks && IsHeight(h)
    ensures HeightKey(h) in d && d[HeightKey(h)] == m.blocks[h].hash
  {
  }

  lemma WithoutBase(m: Store, gone: set<int>)
    ensures Without(m, gone).base == m.base
  {
  }

  lemma SaveOutcome(s: Disk, m: Store, h: int, hash: Hash, data: seq<byte>, cfg: Option<PruneConfig>)
    requires IsHeight(h)
    ensures DiskRepresents(s, m) && WellFormed(m) && m.cfg == cfg && (h in m.blocks || hash !in m.byHash) ==>
      && (HeightKey(h) !in s.db <==> CanSave(m, h, hash))
      && DiskRepresents(SaveDisk(s, h, hash, data), Save(m, h, hash, data))
      && ForeignKept(s.db, SaveDisk(s, h, hash, data).db)
      && WellFormed(Save(m, h, hash, data)) && Save(m, h, hash, data).cfg == cfg
      && (BaseBelow(m) && h >= 1 ==> BaseBelow(Save(m, h, hash, data)) && Consistent(SaveDisk(s, h, hash, data).db))
  {
    hide SaveDisk, Represents, ForeignKept, Consistent, HeightKey;
    if DiskRepresents(s, m) && WellFormed(m) && (h in m.blocks || hash !in m.byHash) {
      SaveRefinesExactly(s, m, h, hash, data);
      SaveKeepsWellFormed(m, h, hash, data);
      if BaseBelow(m) && h >= 1 {
        if CanSave(m, h, hash) { SaveBaseExact(m, h, hash, data); }
        RepresentedIsConsistent(SaveDisk(s, h, hash, data).db, Save(m, h, hash, data));
      }
    }
  }
}
