/**
 * Splitting a file into encrypted chunks and putting it together again.
 *
 * A digest stands for its hexadecimal text.
 */
module FileChunks {
  import opened Basics
  import opened BigEndian
  import opened Primitives

  const MAX_CHUNK: nat := 4 * 1024 * 1024
  const MAX_FILE: nat := 200 * 1024 * 1024

  datatype Chunk = Chunk(index: nat, totalChunks: nat, data: Bytes, hash: Bytes, nonce: Bytes)

  datatype Manifest = Manifest(fileId: string, fileName: string, totalSize: nat, totalChunks: nat,
                               chunkHashes: seq<Bytes>, key: Bytes, sha256: Bytes)

  datatype SplitResult = Split(manifest: Manifest, chunks: seq<Chunk>) | TooLarge

  datatype Outcome =
    | File(bytes: Bytes) | MissingChunks | ChunkMismatch(at: nat) | DecryptFailed | BadRange | FileMismatch

  function Min(a: nat, b: nat): nat { if a <= b then a else b }

  /** (length / maxChunkSize).ceil().clamp(1, 1024) */
  function ChunkCount(length: nat): (n: nat)
    ensures 1 <= n
    ensures length <= MAX_FILE ==> (n - 1) * MAX_CHUNK <= length <= n * MAX_CHUNK
    ensures 0 < length <= MAX_FILE ==> (n - 1) * MAX_CHUNK < length
  {
    var n := (length + MAX_CHUNK - 1) / MAX_CHUNK;
    if n < 1 then 1 else Min(n, 1024)
  }

  /** The bytes of a file that go into chunk i. */
  function Slice(file: Bytes, i: nat): Bytes
    requires i * MAX_CHUNK <= |file|
  {
    file[i * MAX_CHUNK..Min((i + 1) * MAX_CHUNK, |file|)]
  }

  function Sublist(s: Bytes, n: nat): Bytes { if n <= |s| then s[..n] else s }

  function IndexBytes(i: nat): (b: Bytes)
    ensures |b| == 4
  {
    [ByteAt(i, 1), ByteAt(i, 0x100), ByteAt(i, 0x10000), ByteAt(i, 0x1000000)]
  }

  /** The text hashed into a nonce: the key and the index. */
  function NonceInput(key: Bytes, i: nat): Bytes { key + IndexBytes(i) }

  function ChunkNonce(c: Crypto, key: Bytes, i: nat): Bytes { Sublist(c.sha256(NonceInput(key, i)), 12) }

  function MakeChunk(c: Crypto, key: Bytes, total: nat, i: nat, slice: Bytes): Chunk {
    var nonce := ChunkNonce(c, key, i);
    var data := c.encrypt(key, nonce, slice);
    Chunk(i, total, data, c.sha256(data), nonce)
  }

  /** The chunks belong to the file: one for each slice, in order, under the manifest's key. */
  ghost predicate SplitOf(c: Crypto, file: Bytes, m: Manifest, chunks: seq<Chunk>) {
    && |file| <= MAX_FILE
    && m.totalSize == |file| && m.sha256 == c.sha256(file)
    && m.totalChunks == ChunkCount(|file|) == |chunks| == |m.chunkHashes|
    && forall i :: 0 <= i < |chunks| ==> SplitAt(c, file, m, chunks, i)
  }

  ghost predicate SplitAt(c: Crypto, file: Bytes, m: Manifest, chunks: seq<Chunk>, i: nat)
    requires |file| <= MAX_FILE && i < |chunks| == |m.chunkHashes|
  {
    && i * MAX_CHUNK <= |file|
    && chunks[i] == MakeChunk(c, m.key, m.totalChunks, i, Slice(file, i))
    && m.chunkHashes[i] == chunks[i].hash
  }

  /** splitFile; the file id and the key are fresh random values. */
  method SplitFile(c: Crypto, file: Bytes, fileName: string, fileId: string, key: Bytes) returns (r: SplitResult)
    ensures r == TooLarge <==> |file| > 209715200
    ensures r.Split? ==> SplitOf(c, file, r.manifest, r.chunks)
    ensures r.Split? ==> r.manifest.key == key && r.manifest.fileId == fileId && r.manifest.fileName == fileName
  {
    hide MakeChunk, Slice;
    if |file| > MAX_FILE { return TooLarge; }
    var total := ChunkCount(|file|);
    var chunks: seq<Chunk>, hashes: seq<Bytes> := [], [];
    for i := 0 to total
      invariant |chunks| == |hashes| == i
      invariant forall j :: 0 <= j < i ==>
        && j * MAX_CHUNK <= |file|
        && chunks[j] == MakeChunk(c, key, total, j, Slice(file, j)) && hashes[j] == chunks[j].hash
    {
      var chunk := MakeChunk(c, key, total, i, Slice(file, i));
      chunks, hashes := chunks + [chunk], hashes + [chunk.hash];
    }
    r := Split(Manifest(fileId, fileName, |file|, total, hashes, key, c.sha256(file)), chunks);
  }

  /** What a split is: so many chunks of four mebibytes, at least one, each numbered, sealed and digested; and the
      manifest has the size and digest of the file and the digests of the chunks in order. */
  lemma SplitIs(c: Crypto, file: Bytes, m: Manifest, chunks: seq<Chunk>, i: nat)
    requires SplitOf(c, file, m, chunks) && i < |chunks|
    ensures m.totalSize == |file| <= 209715200 && m.sha256 == c.sha256(file)
    ensures |chunks| == if file == [] then 1 else (|file| + 4194303) / 4194304
    ensures m.totalChunks == |m.chunkHashes| == |chunks|
    ensures var from, chunk := i * 4194304, chunks[i];
      var to := if from + 4194304 <= |file| then from + 4194304 else |file|;
      && from <= to && chunk.index == i && chunk.totalChunks == |chunks|
      && chunk.data == c.encrypt(m.key, chunk.nonce, file[from..to])
      && chunk.hash == c.sha256(chunk.data) == m.chunkHashes[i]
  {
    assert SplitAt(c, file, m, chunks, i);
  }

  /** A chunk's nonce is twelve bytes of the digest of the key and the chunk's number in four bytes, the lowest
      first, so no two chunks of a file hash the same text. */
  lemma ChunkNonces(c: Crypto, file: Bytes, m: Manifest, chunks: seq<Chunk>) returns (numbers: seq<Bytes>)
    requires c.DigestsAre32Bytes() && SplitOf(c, file, m, chunks)
    ensures |numbers| == |chunks|
    ensures forall i :: 0 <= i < |chunks| ==>
      && |numbers[i]| == 4
      && numbers[i][0] as nat + numbers[i][1] as nat * 0x100 + numbers[i][2] as nat * 0x10000 + numbers[i][3] as nat * 0x1000000 == i
      && chunks[i].nonce == c.sha256(m.key + numbers[i])[..12]
    ensures forall i, j :: 0 <= i < j < |chunks| ==> m.key + numbers[i] != m.key + numbers[j]
    ensures c.HashInjective() ==> forall i, j :: 0 <= i < j < |chunks| ==> c.sha256(m.key + numbers[i]) != c.sha256(m.key + numbers[j])
  {
    numbers := seq(|chunks|, i requires 0 <= i < |chunks| => IndexBytes(i));
    hide IndexBytes, SplitOf;
    FewChunks(c, file, m, chunks);
    forall i | 0 <= i < |chunks|
      ensures numbers[i][0] as nat + numbers[i][1] as nat * 0x100 + numbers[i][2] as nat * 0x10000 + numbers[i][3] as nat * 0x1000000 == i
      ensures chunks[i].nonce == c.sha256(m.key + numbers[i])[..12]
    {
      IndexValue(i);
      NonceOfChunk(c, file, m, chunks, i);
    }
    forall i, j | 0 <= i < j < |chunks| ensures m.key + numbers[i] != m.key + numbers[j] {
      assert (m.key + numbers[i])[|m.key|..] == numbers[i] && (m.key + numbers[j])[|m.key|..] == numbers[j];
    }
  }

  lemma FewChunks(c: Crypto, file: Bytes, m: Manifest, chunks: seq<Chunk>)
    requires SplitOf(c, file, m, chunks)
    ensures |chunks| < 0x100000000
  {
    assert ChunkCount(|file|) <= 1024;
  }

  lemma NonceOfChunk(c: Crypto, file: Bytes, m: Manifest, chunks: seq<Chunk>, i: nat)
    requires c.DigestsAre32Bytes() && SplitOf(c, file, m, chunks) && i < |chunks|
    ensures chunks[i].nonce == c.sha256(m.key + IndexBytes(i))[..12]
  {
    assert SplitAt(c, file, m, chunks, i);
  }

  /** The lowest byte counts units, the last one most. */
  lemma IndexValue(i: nat)
    requires i < 0x100000000
    ensures var b := IndexBytes(i);
      b[0] as nat + b[1] as nat * 0x100 + b[2] as nat * 0x10000 + b[3] as nat * 0x1000000 == i
  {
    hide ByteAt;
    ByteAtValue(i, 0x1000000);
    ByteAtValue(i, 0x10000);
    ByteAtValue(i, 0x100);
    ByteAtValue(i, 1);
    FourDigits(i);
  }

  /** The slices up to the i-th, one after the other. */
  function SlicesBefore(file: Bytes, i: nat): Bytes
    requires i == 0 || (i - 1) * MAX_CHUNK <= |file|
  {
    if i == 0 then [] else SlicesBefore(file, i - 1) + Slice(file, i - 1)
  }

  /** No gap, no overlap: the slices before i are exactly the first bytes of the file. */
  lemma {:induction false} SlicesArePrefix(file: Bytes, i: nat)
    requires i == 0 || (i - 1) * MAX_CHUNK <= |file|
    ensures SlicesBefore(file, i) == file[..Min(i * MAX_CHUNK, |file|)]
  {
    if i > 0 { SlicesArePrefix(file, i - 1); }
  }

  lemma SlicesPartition(file: Bytes)
    requires |file| <= MAX_FILE
    ensures SlicesBefore(file, ChunkCount(|file|)) == file
    ensures forall i :: 0 <= i < ChunkCount(|file|) - 1 ==> i * MAX_CHUNK <= |file| && |Slice(file, i)| == MAX_CHUNK
    ensures var last := ChunkCount(|file|) - 1;
      last * MAX_CHUNK <= |file| && |Slice(file, last)| <= MAX_CHUNK && (Slice(file, last) == [] <==> file == [])
  {
    SlicesArePrefix(file, ChunkCount(|file|));
  }

  predicate SortedByIndex(chunks: seq<Chunk>) {
    forall i, j :: 0 <= i <= j < |chunks| ==> chunks[i].index <= chunks[j].index
  }

  /** One of the orders a sort by index may leave. */
  ghost predicate IsSorting(sorted: seq<Chunk>, chunks: seq<Chunk>) {
    SortedByIndex(sorted) && multiset(sorted) == multiset(chunks)
  }

  /** A library sort, of which only "sorted" and "same elements" is used. */
  method SortByIndex(chunks: seq<Chunk>) returns (sorted: seq<Chunk>)
    ensures IsSorting(sorted, chunks)
  {
    sorted := [];
    for i := 0 to |chunks|
      invariant SortedByIndex(sorted) && multiset(sorted) == multiset(chunks[..i])
    {
      assert chunks[..i + 1] == chunks[..i] + [chunks[i]];
      sorted := Insert(sorted, chunks[i]);
    }
    assert chunks[..|chunks|] == chunks;
  }

  function Insert(sorted: seq<Chunk>, c: Chunk): (r: seq<Chunk>)
    requires SortedByIndex(sorted)
    ensures SortedByIndex(r) && multiset(r) == multiset(sorted) + multiset{c}
  {
    if sorted == [] || sorted[|sorted| - 1].index <= c.index then sorted + [c]
    else
      ButLast(sorted);
      var front := Insert(sorted[..|sorted| - 1], c);
      AppendLargest(sorted, c, front);
      front + [sorted[|sorted| - 1]]
  }

  lemma ButLast<T>(s: seq<T>)
    requires s != []
    ensures multiset(s[..|s| - 1]) + multiset{s[|s| - 1]} == multiset(s)
    ensures multiset(s[..|s| - 1]) == multiset(s) - multiset{s[|s| - 1]}
  {
    assert s == s[..|s| - 1] + [s[|s| - 1]];
  }

  lemma AppendLargest(sorted: seq<Chunk>, c: Chunk, front: seq<Chunk>)
    requires SortedByIndex(sorted) && sorted != [] && c.index < sorted[|sorted| - 1].index
    requires SortedByIndex(front) && multiset(front) == multiset(sorted[..|sorted| - 1]) + multiset{c}
    ensures SortedByIndex(front + [sorted[|sorted| - 1]])
  {
    var last := sorted[|sorted| - 1];
    forall i | 0 <= i < |front| ensures front[i].index <= last.index {
      assert front[i] in multiset(front);
      assert front[i] == c || front[i] in sorted[..|sorted| - 1];
    }
  }

  /** Chunks numbered 0, 1, ... come back in order whatever order they arrived in. */
  lemma {:induction false} SortRestoresOrder(sorted: seq<Chunk>, chunks: seq<Chunk>)
    requires IsSorting(sorted, chunks)
    requires forall i :: 0 <= i < |chunks| ==> chunks[i].index == i
    ensures sorted == chunks
  {
    hide SortedByIndex;
    assert |sorted| == |multiset(sorted)| == |multiset(chunks)| == |chunks|;
    if sorted != [] {
      var n := |sorted| - 1;
      LastInOrder(sorted, chunks);
      FrontsAgree(sorted, chunks);
      SortRestoresOrder(sorted[..n], chunks[..n]);
      assert sorted == sorted[..n] + [sorted[n]] && chunks == chunks[..n] + [chunks[n]];
    }
  }

  lemma FrontsAgree(sorted: seq<Chunk>, chunks: seq<Chunk>)
    requires SortedByIndex(sorted) && multiset(sorted) == multiset(chunks) && |sorted| == |chunks| > 0
    requires sorted[|sorted| - 1] == chunks[|chunks| - 1]
    ensures SortedByIndex(sorted[..|sorted| - 1])
    ensures multiset(sorted[..|sorted| - 1]) == multiset(chunks[..|chunks| - 1])
  {
    ButLast(sorted);
    ButLast(chunks);
  }

  lemma LastInOrder(sorted: seq<Chunk>, chunks: seq<Chunk>)
    requires SortedByIndex(sorted) && multiset(sorted) == multiset(chunks) && |sorted| == |chunks| > 0
    requires forall i :: 0 <= i < |chunks| ==> chunks[i].index == i
    ensures sorted[|sorted| - 1] == chunks[|chunks| - 1]
  {
    var n := |sorted| - 1;
    assert chunks[n] in multiset(sorted);
    var i :| 0 <= i < |sorted| && sorted[i] == chunks[n];
    assert sorted[n] in multiset(chunks);
    var j :| 0 <= j < |chunks| && chunks[j] == sorted[n];
  }

  /** The verdict of the hash loop from chunk i on: None when every chunk passes. */
  function HashVerdict(c: Crypto, m: Manifest, sorted: seq<Chunk>, i: nat): (r: Option<Outcome>)
    requires i <= |sorted|
    ensures r.Some? ==> r.value.BadRange? || r.value.ChunkMismatch?
    decreases |sorted| - i
  {
    if i == |sorted| then None
    else if i >= |m.chunkHashes| then Some(BadRange)
    else if c.sha256(sorted[i].data) != m.chunkHashes[i] then Some(ChunkMismatch(i))
    else HashVerdict(c, m, sorted, i + 1)
  }

  /** The decrypted chunks joined, or None when one does not decrypt. */
  function Joined(c: Crypto, key: Bytes, sorted: seq<Chunk>): Option<Bytes> {
    if sorted == [] then Some([])
    else
      var n := |sorted| - 1;
      match (Joined(c, key, sorted[..n]), c.decrypt(key, sorted[n].nonce, sorted[n].data))
      case (Some(before), Some(part)) => Some(before + part)
      case _ => None
  }

  function Reassembled(c: Crypto, m: Manifest, sorted: seq<Chunk>): Outcome {
    if |sorted| != m.totalChunks then MissingChunks
    else match HashVerdict(c, m, sorted, 0)
      case Some(failure) => failure
      case None =>
        match Joined(c, m.key, sorted)
        case None => DecryptFailed
        case Some(all) =>
          if m.totalSize > |all| then BadRange
          else if c.sha256(all[..m.totalSize]) != m.sha256 then FileMismatch
          else File(all[..m.totalSize])
  }

  /** reassembleFile. */
  method ReassembleFile(c: Crypto, m: Manifest, chunks: seq<Chunk>) returns (r: Outcome)
    ensures exists sorted :: IsSorting(sorted, chunks) && r == Reassembled(c, m, sorted)
    ensures r == MissingChunks <==> |chunks| != m.totalChunks
    ensures r.File? ==> |r.bytes| == m.totalSize && c.sha256(r.bytes) == m.sha256
  {
    var ordered := SortByIndex(chunks);
    assert |multiset(ordered)| == |multiset(chunks)|;
    if |ordered| != m.totalChunks { return MissingChunks; }
    for i := 0 to |ordered|
      invariant HashVerdict(c, m, ordered, 0) == HashVerdict(c, m, ordered, i)
    {
      if i >= |m.chunkHashes| { return BadRange; }
      if c.sha256(ordered[i].data) != m.chunkHashes[i] { return ChunkMismatch(i); }
    }
    var ok, parts := DecryptAll(c, m.key, ordered);
    if !ok { return DecryptFailed; }
    var out := Concatenate(parts);
    if m.totalSize > out.Length { return BadRange; }
    var res := out[..m.totalSize];
    assert out[..] == Concat(parts);
    assert res == Concat(parts)[..m.totalSize];
    if c.sha256(res) != m.sha256 { return FileMismatch; }
    return File(res);
  }

  function Concat(parts: seq<Bytes>): Bytes {
    if parts == [] then [] else Concat(parts[..|parts| - 1]) + parts[|parts| - 1]
  }

  method DecryptAll(c: Crypto, key: Bytes, sorted: seq<Chunk>) returns (ok: bool, parts: seq<Bytes>)
    ensures Joined(c, key, sorted) == if ok then Some(Concat(parts)) else None
  {
    parts := [];
    for i := 0 to |sorted|
      invariant Joined(c, key, sorted[..i]) == Some(Concat(parts))
    {
      assert sorted[..i + 1][..i] == sorted[..i];
      match c.decrypt(key, sorted[i].nonce, sorted[i].data) {
        case None =>
          NoJoin(c, key, sorted, i + 1);
          return false, parts;
        case Some(part) =>
          assert (parts + [part])[..|parts|] == parts;
          parts := parts + [part];
      }
    }
    assert sorted[..|sorted|] == sorted;
    return true, parts;
  }

  lemma {:induction false} NoJoin(c: Crypto, key: Bytes, sorted: seq<Chunk>, i: nat)
    requires i <= |sorted| && Joined(c, key, sorted[..i]) == None
    ensures Joined(c, key, sorted) == None
    decreases |sorted| - i
  {
    if i < |sorted| {
      assert sorted[..i + 1][..i] == sorted[..i];
      NoJoin(c, key, sorted, i + 1);
    } else {
      assert sorted[..i] == sorted;
    }
  }

  /** The fold over the part lengths, then the parts copied one after the other into a buffer of that length. */
  method Concatenate(parts: seq<Bytes>) returns (out: array<bv8>)
    ensures fresh(out) && out[..] == Concat(parts)
  {
    var totalLen := TotalLength(parts);
    out := new bv8[totalLen](_ => 0);
    var off := 0;
    for i := 0 to |parts|
      invariant off == |Concat(parts[..i])| <= totalLen
      invariant out[..off] == Concat(parts[..i])
    {
      assert parts[..i + 1][..i] == parts[..i];
      ConcatGrows(parts, i + 1);
      SetAll(out, off, parts[i]);
      off := off + |parts[i]|;
    }
    assert parts[..|parts|] == parts && out[..] == out[..totalLen];
  }

  method TotalLength(parts: seq<Bytes>) returns (totalLen: nat)
    ensures totalLen == |Concat(parts)|
  {
    totalLen := 0;
    for i := 0 to |parts|
      invariant totalLen == |Concat(parts[..i])|
    {
      assert parts[..i + 1][..i] == parts[..i];
      totalLen := totalLen + |parts[i]|;
    }
    assert parts[..|parts|] == parts;
  }

  /** out.setAll(off, p) */
  method SetAll(out: array<bv8>, off: nat, p: Bytes)
    requires off + |p| <= out.Length
    modifies out
    ensures out[..off + |p|] == old(out[..off]) + p
  {
    forall k | 0 <= k < |p| { out[off + k] := p[k]; }
  }

  lemma {:induction false} ConcatGrows(parts: seq<Bytes>, i: nat)
    requires i <= |parts|
    ensures |Concat(parts[..i])| <= |Concat(parts)|
    decreases |parts| - i
  {
    if i < |parts| {
      assert parts[..i + 1][..i] == parts[..i];
      ConcatGrows(parts, i + 1);
    } else {
      assert parts[..i] == parts;
    }
  }

  /** splitFile, any reordering, reassembleFile: the file comes back. */
  method SplitThenReassemble(c: Crypto, file: Bytes, id: string, key: Bytes) returns (r: Outcome)
    requires c.DecryptUndoesEncrypt() && |file| <= MAX_FILE
    ensures r == File(file)
  {
    var split := SplitFile(c, file, "", id, key);
    var handed :| multiset(handed) == multiset(split.chunks);
    r := ReassembleFile(c, split.manifest, handed);
    ghost var sorted :| IsSorting(sorted, handed) && r == Reassembled(c, split.manifest, sorted);
    RoundTrip(c, file, split.manifest, split.chunks, sorted);
  }

  /** Every file comes back, in whatever order its chunks are handed over. */
  lemma RoundTrip(c: Crypto, file: Bytes, m: Manifest, chunks: seq<Chunk>, sorted: seq<Chunk>)
    requires c.DecryptUndoesEncrypt() && SplitOf(c, file, m, chunks)
    requires IsSorting(sorted, chunks)
    ensures Reassembled(c, m, sorted) == File(file)
  {
    hide MakeChunk, Slice;
    forall i | 0 <= i < |chunks| ensures chunks[i].index == i { ChunkShape(c, file, m, chunks, i); }
    SortRestoresOrder(sorted, chunks);
    AllHashesMatch(c, file, m, chunks, 0);
    JoinedSlices(c, file, m, chunks, |chunks|);
    SlicesPartition(file);
    assert chunks[..|chunks|] == chunks;
    assert file[..|file|] == file;
  }

  lemma ChunkShape(c: Crypto, file: Bytes, m: Manifest, chunks: seq<Chunk>, i: nat)
    requires SplitOf(c, file, m, chunks) && i < |chunks|
    ensures chunks[i].index == i && m.chunkHashes[i] == c.sha256(chunks[i].data)
    ensures c.DecryptUndoesEncrypt() ==>
      i * MAX_CHUNK <= |file| && c.decrypt(m.key, chunks[i].nonce, chunks[i].data) == Some(Slice(file, i))
  {
    assert SplitAt(c, file, m, chunks, i);
  }

  lemma {:induction false} AllHashesMatch(c: Crypto, file: Bytes, m: Manifest, chunks: seq<Chunk>, i: nat)
    requires SplitOf(c, file, m, chunks) && i <= |chunks|
    ensures HashVerdict(c, m, chunks, i) == None
    decreases |chunks| - i
  {
    hide SplitAt;
    if i < |chunks| {
      ChunkShape(c, file, m, chunks, i);
      AllHashesMatch(c, file, m, chunks, i + 1);
    }
  }

  lemma {:induction false} JoinedSlices(c: Crypto, file: Bytes, m: Manifest, chunks: seq<Chunk>, i: nat)
    requires c.DecryptUndoesEncrypt() && SplitOf(c, file, m, chunks) && i <= |chunks|
    ensures i == 0 || (i - 1) * MAX_CHUNK <= |file|
    ensures Joined(c, m.key, chunks[..i]) == Some(SlicesBefore(file, i))
  {
    hide SplitAt, Slice;
    if i > 0 {
      JoinedSlices(c, file, m, chunks, i - 1);
      ChunkShape(c, file, m, chunks, i - 1);
      assert chunks[..i][..i - 1] == chunks[..i - 1];
    }
  }

  /** What is accepted under any manifest: as many chunks as it names, each with the digest it names and opening under
      its key, together the file of its size and digest. Otherwise the first of these that fails is answered. */
  lemma VerdictIs(c: Crypto, m: Manifest, sorted: seq<Chunk>)
    requires |m.chunkHashes| == m.totalChunks
    ensures var r := Reassembled(c, m, sorted);
      if |sorted| != m.totalChunks then r == MissingChunks
      else if exists i :: 0 <= i < |sorted| && c.sha256(sorted[i].data) != m.chunkHashes[i] then
        r.ChunkMismatch? && r.at < |sorted| && c.sha256(sorted[r.at].data) != m.chunkHashes[r.at]
        && forall i :: 0 <= i < r.at ==> c.sha256(sorted[i].data) == m.chunkHashes[i]
      else if exists i :: 0 <= i < |sorted| && c.decrypt(m.key, sorted[i].nonce, sorted[i].data).None? then r == DecryptFailed
      else r.File? || r == BadRange || r == FileMismatch
  {
    if |sorted| == m.totalChunks {
      FirstMismatch(c, m, sorted, 0);
      AllOrNone(c, m.key, sorted);
    }
  }

  lemma {:induction false} FirstMismatch(c: Crypto, m: Manifest, sorted: seq<Chunk>, from: nat)
    requires from <= |sorted| == |m.chunkHashes|
    ensures match HashVerdict(c, m, sorted, from)
      case None => forall i :: from <= i < |sorted| ==> c.sha256(sorted[i].data) == m.chunkHashes[i]
      case Some(r) =>
        (&& r.ChunkMismatch? && from <= r.at < |sorted| && c.sha256(sorted[r.at].data) != m.chunkHashes[r.at]
         && forall i :: from <= i < r.at ==> c.sha256(sorted[i].data) == m.chunkHashes[i])
    decreases |sorted| - from
  {
    if from < |sorted| { FirstMismatch(c, m, sorted, from + 1); }
  }

  lemma {:induction false} AllOrNone(c: Crypto, key: Bytes, sorted: seq<Chunk>)
    ensures Joined(c, key, sorted).None? <==> exists i :: 0 <= i < |sorted| && c.decrypt(key, sorted[i].nonce, sorted[i].data).None?
  {
    if sorted != [] {
      var n := |sorted| - 1;
      AllOrNone(c, key, sorted[..n]);
      if Joined(c, key, sorted[..n]).None? {
        var i :| 0 <= i < n && c.decrypt(key, sorted[..n][i].nonce, sorted[..n][i].data).None?;
        assert sorted[i] == sorted[..n][i];
      } else {
        assert forall i :: 0 <= i < n ==> sorted[..n][i] == sorted[i];
      }
    }
  }

  /** Whatever is accepted under a file's manifest is that file, from that file's ciphertexts. */
  lemma AcceptedIsOriginal(c: Crypto, file: Bytes, m: Manifest, chunks: seq<Chunk>, sorted: seq<Chunk>)
    requires c.HashInjective() && SplitOf(c, file, m, chunks) && Reassembled(c, m, sorted).File?
    ensures Reassembled(c, m, sorted).bytes == file
    ensures |sorted| == |chunks| && forall i :: 0 <= i < |chunks| ==> sorted[i].data == chunks[i].data
  {
    hide SplitAt;
    forall i | 0 <= i < |chunks| ensures sorted[i].data == chunks[i].data {
      ChunkShape(c, file, m, chunks, i);
      NoVerdict(c, m, sorted, 0, i);
    }
  }

  lemma {:induction false} NoVerdict(c: Crypto, m: Manifest, sorted: seq<Chunk>, from: nat, i: nat)
    requires from <= i < |sorted| && HashVerdict(c, m, sorted, from) == None
    ensures i < |m.chunkHashes| && c.sha256(sorted[i].data) == m.chunkHashes[i]
    decreases i - from
  {
    if from < i { NoVerdict(c, m, sorted, from + 1, i); }
  }

  /** The first chunk whose ciphertext is not the original's is the one reported. */
  lemma TamperedChunkIsNamed(c: Crypto, file: Bytes, m: Manifest, chunks: seq<Chunk>, sorted: seq<Chunk>, at: nat)
    requires c.HashInjective() && SplitOf(c, file, m, chunks)
    requires |sorted| == |chunks| && at < |chunks| && sorted[at].data != chunks[at].data
    requires forall i :: 0 <= i < at ==> sorted[i].data == chunks[i].data
    ensures Reassembled(c, m, sorted) == ChunkMismatch(at)
  {
    hide SplitAt;
    VerdictSkips(c, file, m, chunks, sorted, 0, at);
    ChunkShape(c, file, m, chunks, at);
  }

  lemma {:induction false} VerdictSkips(c: Crypto, file: Bytes, m: Manifest, chunks: seq<Chunk>,
      sorted: seq<Chunk>, from: nat, at: nat)
    requires SplitOf(c, file, m, chunks) && |sorted| == |chunks| && from <= at < |chunks|
    requires forall i :: from <= i < at ==> sorted[i].data == chunks[i].data
    ensures HashVerdict(c, m, sorted, from) == HashVerdict(c, m, sorted, at)
    decreases at - from
  {
    hide SplitAt;
    if from < at {
      ChunkShape(c, file, m, chunks, from);
      VerdictSkips(c, file, m, chunks, sorted, from + 1, at);
    }
  }

  /** Different chunks of a file hash different texts into their nonces. */
  lemma NonceInputsDiffer(key: Bytes, i: nat, j: nat)
    requires i < 0x100000000 && j < 0x100000000 && NonceInput(key, i) == NonceInput(key, j)
    ensures i == j
  {
    hide IndexBytes;
    assert NonceInput(key, i)[|key|..] == IndexBytes(i) && NonceInput(key, j)[|key|..] == IndexBytes(j);
    IndexValue(i);
    IndexValue(j);
  }
}
