/** Snapshot streams: node and metadata encoding, chunking, and reading back. */
module Snapshots {
  import opened Int64
  import opened Wrappers
  import opened Bytes

  const MAX_KEY_SIZE := 4 * 1024
  const MAX_VALUE_SIZE := 10 * 1024 * 1024
  const MAX_HASH_SIZE := 64
  const MAX_METADATA_SIZE := 1024 * 1024
  const MAX_CHUNKS := 100000
  const TWO_32 := 0x1_0000_0000

  // ----- reading

  datatype ReadError = EOF | UnexpectedEOF | TooLarge

  /** A value and what is left of the stream, or why there is none. */
  datatype Read<+T> = Got(value: T, rest: seq<byte>) | Failed(why: ReadError)

  /** io.ReadFull: EOF only when the stream is already at its end. */
  function ReadFull(s: seq<byte>, n: nat): Read<seq<byte>> {
    if |s| >= n then Got(s[..n], s[n..]) else if s == [] then Failed(EOF) else Failed(UnexpectedEOF)
  }

  function ReadNumber(s: seq<byte>, width: nat): Read<nat> {
    match ReadFull(s, width)
    case Got(b, rest) => Got(FromBigEndian(b), rest)
    case Failed(why) => Failed(why)
  }

  /** A 32-bit length and that many bytes. */
  function ReadBlob(s: seq<byte>, limit: nat): Read<seq<byte>> {
    match ReadNumber(s, 4)
    case Failed(why) => Failed(why)
    case Got(n, rest) => if n > limit then Failed(TooLarge) else ReadFull(rest, n)
  }

  function WriteBlob(b: seq<byte>): seq<byte> {
    BigEndian(|b| % TWO_32, 4) + b
  }

  lemma ReadFullOf(a: seq<byte>, b: seq<byte>)
    ensures ReadFull(a + b, |a|) == Got(a, b)
  {
    assert (a + b)[..|a|] == a && (a + b)[|a|..] == b;
  }

  lemma ReadNumberOf(v: nat, width: nat, b: seq<byte>)
    requires v < Pow256(width)
    ensures ReadNumber(BigEndian(v, width) + b, width) == Got(v, b)
  {
    ReadFullOf(BigEndian(v, width), b);
    EncodeThenDecode(v, width);
  }

  /** A blob reads back exactly when it is within the limit. */
  lemma ReadBlobOf(a: seq<byte>, b: seq<byte>, limit: nat)
    requires |a| < TWO_32
    ensures ReadBlob(WriteBlob(a) + b, limit) == if |a| > limit then Failed(TooLarge) else Got(a, b)
  {
    hide BigEndian, FromBigEndian, ReadFull, ReadNumber, Pow256;
    Widths();
    assert WriteBlob(a) + b == BigEndian(|a|, 4) + (a + b);
    ReadNumberOf(|a|, 4, a + b);
    ReadFullOf(a, b);
  }

  /** Reading past the end of what is there. */
  lemma ReadFullShort(s: seq<byte>, n: nat)
    requires |s| < n
    ensures ReadFull(s, n) == Failed(if s == [] then EOF else UnexpectedEOF)
  {
  }

  // ----- exported tree nodes

  /** A nil value marks an inner node. */
  datatype Node = Node(key: seq<byte>, value: Option<seq<byte>>, height: int, version: int)

  ghost predicate Encodable(n: Node) {
    && |n.key| < TWO_32 && (n.value.Some? ==> |n.value.value| < TWO_32)
    && -128 <= n.height <= 127 && InRange(n.version)
  }

  ghost predicate WithinLimits(n: Node) {
    |n.key| <= MAX_KEY_SIZE && (n.value.Some? ==> |n.value.value| <= MAX_VALUE_SIZE)
  }

  function ValueBytes(n: Node): seq<byte> {
    if n.value.Some? then n.value.value else []
  }

  /** An empty value comes back as nil. */
  function Normalized(n: Node): Node {
    if n.value == Some([]) then n.(value := None) else n
  }

  function EncodeInt8(h: int): (b: seq<byte>)
    requires -128 <= h <= 127
    ensures |b| == 1
  {
    [if h < 0 then h + 256 else h]
  }

  function DecodeInt8(b: byte): int {
    if b > 127 then b - 256 else b
  }

  function EncodeNode(n: Node): seq<byte>
    requires Encodable(n)
  {
    WriteBlob(n.key) + WriteBlob(ValueBytes(n)) + EncodeInt8(n.height) + EncodeInt64(n.version)
  }

  function DecodeNode(s: seq<byte>): Read<Node> {
    match ReadBlob(s, MAX_KEY_SIZE)
    case Failed(why) => Failed(why)
    case Got(key, s1) =>
      match ReadBlob(s1, MAX_VALUE_SIZE)
      case Failed(why) => Failed(why)
      case Got(value, s2) => DecodeTail(key, value, s2)
  }

  function DecodeTail(key: seq<byte>, value: seq<byte>, s: seq<byte>): Read<Node> {
    match ReadFull(s, 1)
    case Failed(why) => Failed(why)
    case Got(h, s1) =>
      match ReadFull(s1, 8)
      case Failed(why) => Failed(why)
      case Got(v, rest) =>
        Got(Node(key, if value == [] then None else Some(value), DecodeInt8(h[0]), DecodeInt64(v)), rest)
  }

  lemma DecodeTailOf(n: Node, key: seq<byte>, value: seq<byte>, rest: seq<byte>)
    requires Encodable(n)
    ensures DecodeTail(key, value, EncodeInt8(n.height) + EncodeInt64(n.version) + rest)
      == Got(Node(key, if value == [] then None else Some(value), n.height, n.version), rest)
  {
    var h, v := EncodeInt8(n.height), EncodeInt64(n.version);
    assert h + v + rest == h + (v + rest);
    ReadFullOf(h, v + rest);
    ReadFullOf(v, rest);
    Int64RoundTrip(n.version, []);
    assert v + [] == v;
  }

  /** One node reads back, normalized, exactly when it is within the limits. */
  lemma NodeRoundTrip(n: Node, rest: seq<byte>)
    requires Encodable(n)
    ensures DecodeNode(EncodeNode(n) + rest) == if WithinLimits(n) then Got(Normalized(n), rest) else Failed(TooLarge)
  {
    hide DecodeTail, ReadBlob, WriteBlob, EncodeInt64, EncodeInt8;
    var tail := EncodeInt8(n.height) + EncodeInt64(n.version) + rest;
    var value := WriteBlob(ValueBytes(n));
    assert EncodeNode(n) + rest == WriteBlob(n.key) + (value + tail);
    ReadBlobOf(n.key, value + tail, MAX_KEY_SIZE);
    ReadBlobOf(ValueBytes(n), tail, MAX_VALUE_SIZE);
    DecodeTailOf(n, n.key, ValueBytes(n), rest);
  }

  // ----- whole streams

  datatype ImportResult = Imported(nodes: seq<Node>) | Corrupt(why: ReadError)

  function EncodeAll(ns: seq<Node>): seq<byte>
    requires forall i :: 0 <= i < |ns| ==> Encodable(ns[i])
  {
    if ns == [] then [] else EncodeNode(ns[0]) + EncodeAll(ns[1..])
  }

  lemma DecodeConsumes(s: seq<byte>)
    ensures DecodeNode(s).Got? ==> |DecodeNode(s).rest| < |s|
  {
  }

  /** The import loop: a node that fails with EOF ends the stream. */
  function DecodeAll(s: seq<byte>): ImportResult
    decreases |s|
  {
    match DecodeNode(s)
    case Failed(EOF) => Imported([])
    case Failed(why) => Corrupt(why)
    case Got(n, rest) =>
      DecodeConsumes(s);
      match DecodeAll(rest)
      case Corrupt(why) => Corrupt(why)
      case Imported(ns) => Imported([n] + ns)
  }

  function NormalizedAll(ns: seq<Node>): (r: seq<Node>)
    ensures |r| == |ns|
  {
    if ns == [] then [] else [Normalized(ns[0])] + NormalizedAll(ns[1..])
  }

  ghost predicate AllWithinLimits(ns: seq<Node>) {
    forall i :: 0 <= i < |ns| ==> WithinLimits(ns[i])
  }

  /** A stream of nodes reads back, normalized, exactly when every node is
      within the limits; otherwise the import fails. */
  lemma {:induction false} StreamRoundTrip(ns: seq<Node>)
    requires forall i :: 0 <= i < |ns| ==> Encodable(ns[i])
    ensures DecodeAll(EncodeAll(ns)) == if AllWithinLimits(ns) then Imported(NormalizedAll(ns)) else Corrupt(TooLarge)
  {
    hide DecodeNode, EncodeNode, Encodable, AllWithinLimits, WithinLimits, Normalized;
    if ns == [] {
      NothingToRead();
    } else {
      NodeRoundTrip(ns[0], EncodeAll(ns[1..]));
      StreamRoundTrip(ns[1..]);
      LimitsSplit(ns);
    }
  }

  lemma NothingToRead()
    ensures DecodeNode([]) == Failed(EOF) && AllWithinLimits([])
  {
  }

  lemma LimitsSplit(ns: seq<Node>)
    requires ns != []
    ensures AllWithinLimits(ns) <==> WithinLimits(ns[0]) && AllWithinLimits(ns[1..])
  {
    assert ns == [ns[0]] + ns[1..];
  }

  // ----- chunks

  function Chunks(data: seq<byte>, size: nat): seq<seq<byte>>
    requires size > 0
  {
    if data == [] then [] else if |data| <= size then [data] else [data[..size]] + Chunks(data[size..], size)
  }

  function Join(chunks: seq<seq<byte>>): seq<byte> {
    if chunks == [] then [] else chunks[0] + Join(chunks[1..])
  }

  /** Chunks of every positive size put the data back together, and all but
      the last are full. */
  lemma {:induction false} ChunksJoin(data: seq<byte>, size: nat)
    requires size > 0
    ensures Join(Chunks(data, size)) == data
    ensures forall i :: 0 <= i < |Chunks(data, size)| ==>
      var c := Chunks(data, size)[i]; 0 < |c| <= size && (i < |Chunks(data, size)| - 1 ==> |c| == size)
    decreases |data|
  {
    if |data| > size {
      ChunksJoin(data[size..], size);
      assert data == data[..size] + data[size..];
    } else if data != [] {
      assert [data][1..] == [];
      assert data + [] == data;
    }
  }

  lemma {:induction false} JoinAppend(chunks: seq<seq<byte>>, c: seq<byte>)
    ensures Join(chunks + [c]) == Join(chunks) + c
  {
    if chunks == [] {
      assert [c][1..] == [];
      assert ([] + [c])[1..] == [];
    } else {
      assert (chunks + [c])[1..] == chunks[1..] + [c];
      JoinAppend(chunks[1..], c);
    }
  }

  /** Cutting one chunk off the data that starts at i. */
  lemma ChunkStep(data: seq<byte>, i: nat, end: nat, size: nat)
    requires size > 0 && i < end <= |data| && end == if i + size < |data| then i + size else |data|
    ensures Chunks(data[i..], size) == [data[i..end]] + Chunks(data[end..], size)
  {
    if i + size < |data| {
      assert data[i..][..size] == data[i..end] && data[i..][size..] == data[end..];
    } else {
      assert data[i..end] == data[i..];
      assert [data[i..]] + [] == [data[i..]];
    }
  }

  method SplitIntoChunks(data: seq<byte>, size: nat) returns (chunks: seq<seq<byte>>)
    requires size > 0
    ensures chunks == Chunks(data, size)
  {
    chunks := [];
    var i := 0;
    assert data[0..] == data;
    while i < |data|
      invariant 0 <= i <= |data| && chunks + Chunks(data[i..], size) == Chunks(data, size)
      decreases |data| - i
    {
      var end := if i + size < |data| then i + size else |data|;
      ChunkStep(data, i, end, size);
      chunks := chunks + [data[i..end]];
      i := end;
    }
    assert chunks + [] == chunks;
  }

  /** Exporting, compressing, chunking, joining, decompressing and importing
      gives the nodes back, for every chunk size and every inverse pair. */
  lemma SnapshotRoundTrip(ns: seq<Node>, size: nat, compress: seq<byte> -> seq<byte>, expand: seq<byte> -> seq<byte>)
    requires size > 0 && forall i :: 0 <= i < |ns| ==> Encodable(ns[i]) && WithinLimits(ns[i])
    requires forall s :: expand(compress(s)) == s
    ensures DecodeAll(expand(Join(Chunks(compress(EncodeAll(ns)), size)))) == Imported(NormalizedAll(ns))
  {
    ChunksJoin(compress(EncodeAll(ns)), size);
    StreamRoundTrip(ns);
  }

  // ----- truncated streams

  lemma BlobCut(a: seq<byte>, k: nat, limit: nat)
    requires |a| < TWO_32 && |a| <= limit && k < 4 + |a|
    ensures ReadBlob(WriteBlob(a)[..k], limit) == Failed(if k == 0 || k == 4 then EOF else UnexpectedEOF)
  {
    var s := WriteBlob(a)[..k];
    if k >= 4 {
      Widths();
      var b := a[..k - 4];
      assert s == BigEndian(|a|, 4) + b;
      ReadNumberOf(|a|, 4, b);
      ReadFullShort(b, |a|);
    }
  }

  lemma TailCut(n: Node, key: seq<byte>, value: seq<byte>, k: nat)
    requires Encodable(n) && k < 9
    ensures DecodeTail(key, value, (EncodeInt8(n.height) + EncodeInt64(n.version))[..k])
      == Failed(if k == 0 || k == 1 then EOF else UnexpectedEOF)
  {
    var h, s := EncodeInt8(n.height), (EncodeInt8(n.height) + EncodeInt64(n.version))[..k];
    if k >= 1 {
      assert s == h + EncodeInt64(n.version)[..k - 1];
      ReadFullOf(h, EncodeInt64(n.version)[..k - 1]);
      ReadFullShort(EncodeInt64(n.version)[..k - 1], 8);
    }
  }

  /** Offsets at which one of a node's six fields begins. */
  predicate FieldStart(n: Node, k: int) {
    var keyEnd, valueEnd := 4 + |n.key|, 8 + |n.key| + |ValueBytes(n)|;
    k == 0 || k == 4 || k == keyEnd || k == keyEnd + 4 || k == valueEnd || k == valueEnd + 1
  }

  lemma ValueCut(n: Node, k: nat)
    requires Encodable(n) && WithinLimits(n) && 4 + |n.key| <= k < |EncodeNode(n)|
    ensures DecodeNode(EncodeNode(n)[..k]) == Failed(if FieldStart(n, k) then EOF else UnexpectedEOF)
  {
    hide DecodeTail, ReadBlob, EncodeInt64, EncodeInt8;
    var keyBlob, valueBlob := WriteBlob(n.key), WriteBlob(ValueBytes(n));
    var tail := EncodeInt8(n.height) + EncodeInt64(n.version);
    assert EncodeNode(n) == keyBlob + (valueBlob + tail);
    var j := k - |keyBlob|;
    assert EncodeNode(n)[..k] == keyBlob + (valueBlob + tail)[..j];
    ReadBlobOf(n.key, (valueBlob + tail)[..j], MAX_KEY_SIZE);
    if j < |valueBlob| {
      assert (valueBlob + tail)[..j] == valueBlob[..j];
      BlobCut(ValueBytes(n), j, MAX_VALUE_SIZE);
    } else {
      assert (valueBlob + tail)[..j] == valueBlob + tail[..j - |valueBlob|];
      ReadBlobOf(ValueBytes(n), tail[..j - |valueBlob|], MAX_VALUE_SIZE);
      TailCut(n, n.key, ValueBytes(n), j - |valueBlob|);
    }
  }

  lemma NodeCut(n: Node, k: nat)
    requires Encodable(n) && WithinLimits(n) && k < |EncodeNode(n)|
    ensures DecodeNode(EncodeNode(n)[..k]) == Failed(if FieldStart(n, k) then EOF else UnexpectedEOF)
  {
    if k < 4 + |n.key| {
      assert EncodeNode(n)[..k] == WriteBlob(n.key)[..k];
      BlobCut(n.key, k, MAX_KEY_SIZE);
    } else {
      ValueCut(n, k);
    }
  }

  /** How many whole nodes the first k bytes hold. */
  function WholeNodes(ns: seq<Node>, k: int): (w: nat)
    requires forall i :: 0 <= i < |ns| ==> Encodable(ns[i])
    ensures w <= |ns|
  {
    if ns == [] || k < |EncodeNode(ns[0])| then 0 else 1 + WholeNodes(ns[1..], k - |EncodeNode(ns[0])|)
  }

  /** The cut after k bytes falls between two fields. */
  predicate CutBetweenFields(ns: seq<Node>, k: int)
    requires forall i :: 0 <= i < |ns| ==> Encodable(ns[i])
  {
    if ns == [] then true
    else if k < |EncodeNode(ns[0])| then FieldStart(ns[0], k)
    else CutBetweenFields(ns[1..], k - |EncodeNode(ns[0])|)
  }

  /** A truncated stream is noticed exactly when the cut falls inside a field;
      a cut between fields, even within a node, imports the whole nodes before
      it and reports success. */
  lemma {:induction false} TruncationExact(ns: seq<Node>, k: nat)
    requires forall i :: 0 <= i < |ns| ==> Encodable(ns[i]) && WithinLimits(ns[i])
    requires k <= |EncodeAll(ns)|
    ensures DecodeAll(EncodeAll(ns)[..k])
      == if CutBetweenFields(ns, k) then Imported(NormalizedAll(ns)[..WholeNodes(ns, k)]) else Corrupt(UnexpectedEOF)
    decreases |ns|
  {
    hide EncodeNode, DecodeNode, Encodable, WithinLimits, FieldStart;
    if ns == [] {
      EmptyStream();
    } else {
      var first, rest := EncodeNode(ns[0]), EncodeAll(ns[1..]);
      if k < |first| {
        assert (first + rest)[..k] == first[..k];
        NodeCut(ns[0], k);
      } else {
        assert (first + rest)[..k] == first + rest[..k - |first|];
        NodeRoundTrip(ns[0], rest[..k - |first|]);
        TruncationExact(ns[1..], k - |first|);
      }
    }
  }

  lemma EmptyStream()
    ensures DecodeAll([]) == Imported([])
  {
  }

  // ----- metadata

  datatype Snapshot = Snapshot(version: nat, height: int, hash: seq<byte>, chunkSize: int, chunks: int,
                               appHash: seq<byte>, createdAt: int, metadata: seq<byte>)

  ghost predicate MetaEncodable(s: Snapshot) {
    && s.version < TWO_32 && InRange(s.height) && InRange(s.createdAt)
    && 0 <= s.chunkSize < TWO_32 && 0 <= s.chunks < TWO_32
    && |s.hash| < TWO_32 && |s.appHash| < TWO_32 && |s.metadata| < TWO_32
  }

  ghost predicate MetaWithinLimits(s: Snapshot) {
    && |s.hash| <= MAX_HASH_SIZE && |s.appHash| <= MAX_HASH_SIZE
    && |s.metadata| <= MAX_METADATA_SIZE && s.chunks <= MAX_CHUNKS
  }

  function EncodeMetadata(s: Snapshot): seq<byte>
    requires MetaEncodable(s)
  {
    BigEndian(s.version, 4) + EncodeInt64(s.height) + WriteBlob(s.hash)
    + BigEndian(s.chunkSize, 4) + BigEndian(s.chunks, 4) + WriteBlob(s.appHash)
    + EncodeInt64(s.createdAt) + WriteBlob(s.metadata)
  }

  function ReadInt64(s: seq<byte>): Read<int> {
    match ReadFull(s, 8)
    case Failed(why) => Failed(why)
    case Got(b, rest) => Got(DecodeInt64(b), rest)
  }

  lemma ReadInt64Of(v: int, b: seq<byte>)
    requires InRange(v)
    ensures ReadInt64(EncodeInt64(v) + b) == Got(v, b)
  {
    ReadFullOf(EncodeInt64(v), b);
    Int64RoundTrip(v, []);
    assert EncodeInt64(v) + [] == EncodeInt64(v);
  }

  function DecodeMetadata(s0: seq<byte>): Read<Snapshot> {
    match ReadNumber(s0, 4) case Failed(e) => Failed(e) case Got(version, s1) =>
    match ReadInt64(s1) case Failed(e) => Failed(e) case Got(height, s2) =>
    match ReadBlob(s2, MAX_HASH_SIZE) case Failed(e) => Failed(e) case Got(hash, s3) =>
    match ReadNumber(s3, 4) case Failed(e) => Failed(e) case Got(chunkSize, s4) =>
    DecodeMetadataTail(version, height, hash, chunkSize, s4)
  }

  function DecodeMetadataTail(version: nat, height: int, hash: seq<byte>, chunkSize: nat, s4: seq<byte>): Read<Snapshot> {
    match ReadNumber(s4, 4) case Failed(e) => Failed(e) case Got(chunks, s5) =>
    if chunks > MAX_CHUNKS then Failed(TooLarge) else
    match ReadBlob(s5, MAX_HASH_SIZE) case Failed(e) => Failed(e) case Got(appHash, s6) =>
    match ReadInt64(s6) case Failed(e) => Failed(e) case Got(createdAt, s7) =>
    match ReadBlob(s7, MAX_METADATA_SIZE) case Failed(e) => Failed(e) case Got(metadata, s8) =>
    Got(Snapshot(version, height, hash, chunkSize, chunks, appHash, createdAt, metadata), s8)
  }

  lemma MetadataTailRoundTrip(s: Snapshot, hash: seq<byte>, rest: seq<byte>)
    requires MetaEncodable(s)
    ensures DecodeMetadataTail(s.version, s.height, hash, s.chunkSize,
        BigEndian(s.chunks, 4) + (WriteBlob(s.appHash) + (EncodeInt64(s.createdAt) + (WriteBlob(s.metadata) + rest))))
      == if s.chunks <= MAX_CHUNKS && |s.appHash| <= MAX_HASH_SIZE && |s.metadata| <= MAX_METADATA_SIZE
         then Got(s.(hash := hash), rest) else Failed(TooLarge)
  {
    hide ReadNumber, ReadBlob, ReadInt64, WriteBlob, EncodeInt64, BigEndian;
    Widths();
    var meta := WriteBlob(s.metadata) + rest;
    var created := EncodeInt64(s.createdAt) + meta;
    ReadNumberOf(s.chunks, 4, WriteBlob(s.appHash) + created);
    ReadBlobOf(s.appHash, created, MAX_HASH_SIZE);
    ReadInt64Of(s.createdAt, meta);
    ReadBlobOf(s.metadata, rest, MAX_METADATA_SIZE);
  }

  /** Metadata reads back, whatever follows it, exactly when it is within the limits. */
  lemma MetadataRoundTrip(s: Snapshot, rest: seq<byte>)
    requires MetaEncodable(s)
    ensures DecodeMetadata(EncodeMetadata(s) + rest) == if MetaWithinLimits(s) then Got(s, rest) else Failed(TooLarge)
  {
    hide ReadNumber, ReadBlob, ReadInt64, WriteBlob, EncodeInt64, BigEndian, DecodeMetadataTail;
    Widths();
    var tail := BigEndian(s.chunks, 4)
      + (WriteBlob(s.appHash) + (EncodeInt64(s.createdAt) + (WriteBlob(s.metadata) + rest)));
    var size := BigEndian(s.chunkSize, 4) + tail;
    var hash := WriteBlob(s.hash) + size;
    assert EncodeMetadata(s) + rest == BigEndian(s.version, 4) + (EncodeInt64(s.height) + hash);
    ReadNumberOf(s.version, 4, EncodeInt64(s.height) + hash);
    ReadInt64Of(s.height, hash);
    ReadBlobOf(s.hash, size, MAX_HASH_SIZE);
    ReadNumberOf(s.chunkSize, 4, tail);
    MetadataTailRoundTrip(s, s.hash, rest);
    assert s.(hash := s.hash) == s;
  }

  // ----- the writer and the reader

  class ByteWriter {
    var buf: seq<byte>

    constructor ()
      ensures buf == []
    {
      buf := [];
    }

    method WriteLengthAndBytes(b: seq<byte>)
      modifies this
      ensures buf == old(buf) + WriteBlob(b)
    {
      buf := buf + BigEndian(|b| % TWO_32, 4);
      buf := buf + b;
    }

    method EncodeExportNode(n: Node)
      requires Encodable(n)
      modifies this
      ensures buf == old(buf) + EncodeNode(n)
    {
      hide WriteBlob;
      WriteLengthAndBytes(n.key);
      WriteLengthAndBytes(if n.value.Some? then n.value.value else []);
      buf := buf + EncodeInt8(n.height);
      buf := buf + EncodeInt64(n.version);
    }
  }

  class ByteReader {
    const data: seq<byte>
    var pos: nat

    function Rest(): seq<byte>
      reads this
    {
      if pos <= |data| then data[pos..] else []
    }

    constructor (data: seq<byte>)
      ensures this.data == data && pos == 0 && Rest() == data
    {
      this.data, pos := data, 0;
    }

    method Take(n: nat) returns (b: seq<byte>, err: Option<ReadError>)
      modifies this
      ensures match ReadFull(old(Rest()), n)
        case Got(x, rest) => err.None? && b == x && Rest() == rest
        case Failed(why) => err == Some(why)
    {
      b := [];
      if pos > |data| || |data| - pos < n {
        if n == 0 { return [], None; }
        var left := Rest();
        pos := |data|;
        return [], Some(if left == [] then EOF else UnexpectedEOF);
      }
      b, err := data[pos..pos + n], None;
      assert Rest()[..n] == b && Rest()[n..] == data[pos + n..];
      pos := pos + n;
    }

    method TakeBlob(limit: nat) returns (b: seq<byte>, err: Option<ReadError>)
      modifies this
      ensures match ReadBlob(old(Rest()), limit)
        case Got(x, rest) => err.None? && b == x && Rest() == rest
        case Failed(why) => err == Some(why)
    {
      hide ReadFull;
      b, err := Take(4);
      if err.Some? { return; }
      var n := FromBigEndian(b);
      if n > limit { return [], Some(TooLarge); }
      b, err := Take(n);
    }

    method DecodeExportNode() returns (n: Option<Node>, err: Option<ReadError>)
      modifies this
      ensures match DecodeNode(old(Rest()))
        case Got(x, rest) => err.None? && n == Some(x) && Rest() == rest
        case Failed(why) => err == Some(why)
    {
      hide ReadBlob, ReadFull, DecodeInt64, DecodeInt8;
      n := None;
      var key, value, h, v;
      key, err := TakeBlob(MAX_KEY_SIZE);
      if err.Some? { return; }
      value, err := TakeBlob(MAX_VALUE_SIZE);
      if err.Some? { return; }
      ghost var s := Rest();
      h, err := Take(1);
      if err.Some? { return; }
      ReadFullLength(s, 1);
      v, err := Take(8);
      if err.Some? { return; }
      n := Some(Node(key, if |value| > 0 then Some(value) else None, DecodeInt8(h[0]), DecodeInt64(v)));
    }
  }

  lemma ReadFullLength(s: seq<byte>, n: nat)
    requires ReadFull(s, n).Got?
    ensures |ReadFull(s, n).value| == n
  {
  }

  /** Exports the nodes into one buffer. */
  method Export(ns: seq<Node>) returns (data: seq<byte>)
    requires forall i :: 0 <= i < |ns| ==> Encodable(ns[i])
    ensures data == EncodeAll(ns)
  {
    hide EncodeAll, EncodeNode;
    var w := new ByteWriter();
    assert ns[0..] == ns && [] + EncodeAll(ns) == EncodeAll(ns);
    for i := 0 to |ns|
      invariant w.buf + EncodeAll(ns[i..]) == EncodeAll(ns)
    {
      EncodeStep(ns, i);
      w.EncodeExportNode(ns[i]);
    }
    EncodeEnd(ns);
    data := w.buf;
    assert data + [] == data;
  }

  lemma EncodeStep(ns: seq<Node>, i: nat)
    requires i < |ns| && forall j :: 0 <= j < |ns| ==> Encodable(ns[j])
    ensures forall s :: (s + EncodeNode(ns[i])) + EncodeAll(ns[i + 1..]) == s + EncodeAll(ns[i..])
  {
    assert ns[i..][1..] == ns[i + 1..];
    hide EncodeNode;
    assert EncodeAll(ns[i..]) == EncodeNode(ns[i]) + EncodeAll(ns[i + 1..]);
    forall s ensures (s + EncodeNode(ns[i])) + EncodeAll(ns[i + 1..]) == s + EncodeAll(ns[i..]) {
      assert (s + EncodeNode(ns[i])) + EncodeAll(ns[i + 1..]) == s + (EncodeNode(ns[i]) + EncodeAll(ns[i + 1..]));
    }
  }

  lemma EncodeEnd(ns: seq<Node>)
    requires forall j :: 0 <= j < |ns| ==> Encodable(ns[j])
    ensures EncodeAll(ns[|ns|..]) == []
  {
  }

  /** Joins the chunks, expands them and reads nodes until the stream ends. */
  method Import(chunks: seq<seq<byte>>, expand: seq<byte> -> seq<byte>) returns (r: ImportResult)
    ensures r == DecodeAll(expand(Join(chunks)))
  {
    hide DecodeNode;
    var buffer: seq<byte> := [];
    for i := 0 to |chunks|
      invariant buffer == Join(chunks[..i])
    {
      assert chunks[..i + 1] == chunks[..i] + [chunks[i]];
      JoinAppend(chunks[..i], chunks[i]);
      buffer := buffer + chunks[i];
    }
    assert chunks[..|chunks|] == chunks;
    var reader := new ByteReader(expand(buffer));
    var nodes: seq<Node> := [];
    while true
      invariant DecodeAll(expand(buffer)) == match DecodeAll(reader.Rest())
        case Corrupt(why) => Corrupt(why)
        case Imported(more) => Imported(nodes + more)
      decreases |reader.Rest()|
    {
      DecodeConsumes(reader.Rest());
      var n, err := reader.DecodeExportNode();
      if err == Some(EOF) {
        assert nodes + [] == nodes;
        return Imported(nodes);
      }
      if err.Some? { return Corrupt(err.value); }
      AppendAssociates(nodes, n.value, reader.Rest());
      nodes := nodes + [n.value];
    }
  }

  lemma AppendAssociates(nodes: seq<Node>, n: Node, s: seq<byte>)
    ensures DecodeAll(s).Imported? ==> nodes + ([n] + DecodeAll(s).nodes) == nodes + [n] + DecodeAll(s).nodes
  {
  }
}
