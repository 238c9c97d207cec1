// Payload streams: a file or a run of zeroes cut into blocks
// (RomFlashEngineV1.file_stream, zero_stream, payload_sha, zero_sha;
// RomFlashLayoutV1.sha256_file).

module Streams {
  import opened Disk

  /** What a generator yields: some blocks, then either its end or an exception. */
  datatype Stream = Stream(blocks: seq<Bytes>, broken: bool)

  ghost function Flatten(blocks: seq<Bytes>): Bytes {
    if blocks == [] then [] else Flatten(blocks[..|blocks| - 1]) + blocks[|blocks| - 1]
  }

  lemma FlattenSnoc(blocks: seq<Bytes>, i: nat)
    requires i < |blocks|
    ensures Flatten(blocks[..i + 1]) == Flatten(blocks[..i]) + blocks[i]
  {
    assert blocks[..i + 1][..i] == blocks[..i];
  }

  lemma FlattenAppend(blocks: seq<Bytes>, b: Bytes)
    ensures Flatten(blocks + [b]) == Flatten(blocks) + b
  {
    assert (blocks + [b])[..|blocks|] == blocks;
  }

  /** The blocks up to `i` are a prefix of all of them. */
  lemma {:induction false} FlattenPrefix(blocks: seq<Bytes>, i: nat)
    requires i <= |blocks|
    ensures Flatten(blocks[..i]) <= Flatten(blocks)
    decreases |blocks| - i
  {
    if i < |blocks| {
      FlattenSnoc(blocks, i);
      FlattenPrefix(blocks, i + 1);
    } else {
      assert blocks[..i] == blocks;
    }
  }

  /** Where block `i` sits in the concatenation. */
  lemma FlattenPiece(blocks: seq<Bytes>, i: nat, at: nat)
    requires i < |blocks| && at == |Flatten(blocks[..i])|
    ensures |Flatten(blocks[..i + 1])| == at + |blocks[i]| <= |Flatten(blocks)|
    ensures Flatten(blocks)[at..at + |blocks[i]|] == blocks[i]
  {
    FlattenSnoc(blocks, i);
    FlattenPrefix(blocks, i + 1);
    assert Flatten(blocks)[at..at + |blocks[i]|] == Flatten(blocks[..i + 1])[at..at + |blocks[i]|];
  }

  const CHUNK: nat := 0x10_0000

  ghost predicate FullChunks(blocks: seq<Bytes>) {
    && (forall k :: 0 <= k < |blocks| ==> 0 < |blocks[k]| <= CHUNK)
    && (forall k :: 0 <= k < |blocks| - 1 ==> |blocks[k]| == CHUNK)
  }

  /** The first `nbytes` of a file, in blocks; broken when the file is shorter. */
  method FileStream(content: Bytes, nbytes: nat) returns (s: Stream)
    ensures s.broken <==> |content| < nbytes
    ensures Flatten(s.blocks) == content[..if nbytes < |content| then nbytes else |content|]
    ensures FullChunks(s.blocks)
  {
    var left: nat, at: nat := nbytes, 0;
    var blocks := [];
    while left > 0
      invariant at + left == nbytes && at <= |content|
      invariant Flatten(blocks) == content[..at]
      invariant left > 0 && at < |content| ==> forall k :: 0 <= k < |blocks| ==> |blocks[k]| == CHUNK
      invariant FullChunks(blocks)
    {
      var most := if left < CHUNK then left else CHUNK;
      var b := if |content| - at < most then content[at..] else content[at..at + most];
      if |b| == 0 { return Stream(blocks, true); }
      FlattenAppend(blocks, b);
      blocks := blocks + [b];
      at, left := at + |b|, left - |b|;
    }
    s := Stream(blocks, false);
  }

  method ZeroStream(nbytes: nat) returns (s: Stream)
    ensures !s.broken && Flatten(s.blocks) == Zeros(nbytes)
  {
    var left: nat := nbytes;
    var blocks := [];
    while left > 0
      invariant left <= nbytes && Flatten(blocks) == Zeros(nbytes - left)
    {
      var n := if left < CHUNK then left else CHUNK;
      FlattenAppend(blocks, Zeros(n));
      blocks := blocks + [Zeros(n)];
      left := left - n;
    }
    s := Stream(blocks, false);
  }

  /** Feeding a hash block by block hashes the concatenation. */
  method HashStream(sha: Hash, s: Stream) returns (digest: Digest)
    ensures digest == sha(Flatten(s.blocks))
  {
    var fed: Bytes := [];
    for i := 0 to |s.blocks|
      invariant fed == Flatten(s.blocks[..i])
    {
      FlattenSnoc(s.blocks, i);
      fed := fed + s.blocks[i];
    }
    assert s.blocks[..|s.blocks|] == s.blocks;
    digest := sha(fed);
  }

  /** The head a bounded file hash covers: all of a short file, and all of the
      file when the bound is negative (a read of a negative count reads on). */
  function HeadBytes(content: Bytes, limit: int): (head: Bytes)
    ensures limit >= 0 ==> head == Take(content, limit)
  {
    if limit < 0 || |content| < limit then content else content[..limit]
  }

  const HASH_BLOCK: nat := 0x40_0000

  method Sha256File(sha: Hash, content: Bytes, limit: int) returns (digest: Digest)
    ensures digest == sha(HeadBytes(content, limit))
  {
    var left, at := limit, 0;
    var fed: Bytes := [];
    while true
      invariant 0 <= at <= |content| && fed == content[..at]
      invariant limit >= 0 ==> left >= 0 && at + left == limit
      invariant limit < 0 ==> left < 0
      decreases |content| - at
    {
      var n := if left < HASH_BLOCK then left else HASH_BLOCK;
      if n == 0 { break; }
      var b := if n < 0 || |content| - at < n then content[at..] else content[at..at + n];
      if |b| == 0 { break; }
      fed := fed + b;
      at, left := at + |b|, left - |b|;
    }
    assert fed == HeadBytes(content, limit);
    digest := sha(fed);
  }
}
