// Random-access sources over local content, each with a cache of one verified chunk: a chunked
// encrypted blob, and an external file that may change behind the reader's back.
module MediaSources {
  import opened Basics
  import opened Envelope
  import opened ManagedBlob
  import opened MediaStore
  import opened MediaMove

  const NO_CHUNK := -1

  // The cached chunk, if there is one, is that chunk of the content.
  predicate CacheHolds(content: Bytes, index: int, chunk: Bytes) {
    index == NO_CHUNK || (0 <= index < ChunkCount(|content|) && chunk == ChunkOf(content, index))
  }

  lemma ChunkCovers(content: Bytes, offset: nat, remaining: nat)
    requires 0 < remaining && offset + remaining <= |content|
    ensures var index := offset / CHUNK_SIZE;
      && index < ChunkCount(|content|) && index * CHUNK_SIZE <= offset < index * CHUNK_SIZE + |ChunkOf(content, index)|
      && |ChunkOf(content, index)| == Min(CHUNK_SIZE, |content| - index * CHUNK_SIZE)
  {
    ChunkHolds(content, offset, remaining);
  }

  // Copying `count` bytes of `chunk` into the buffer continues the slice.
  lemma CopyContinues(content: Bytes, start: nat, written: nat, count: nat, buffer: Bytes, before: Bytes, initial: Bytes)
    requires start + written + count <= |content| && written + count <= |buffer| && |before| == |initial| == |buffer|
    requires before[..written] == content[start..start + written] && before[written..] == initial[written..]
    requires buffer[..written] == before[..written] && buffer[written + count..] == before[written + count..]
    requires buffer[written..written + count] == content[start + written..start + written + count]
    ensures buffer[..written + count] == content[start..start + written + count]
    ensures buffer[written + count..] == initial[written + count..]
  {
    assert buffer[..written + count] == buffer[..written] + buffer[written..written + count];
    assert content[start..start + written + count]
        == content[start..start + written] + content[start + written..start + written + count];
    assert before[written + count..] == before[written..][count..];
    assert initial[written + count..] == initial[written..][count..];
  }

  // Copying bytes of which something is known next to others of which it is known.
  lemma CopiedBytes(known: (nat, Byte) -> bool, offset: nat, cursor: nat, part: Bytes, before: Bytes, after: Bytes)
    requires offset <= cursor && |before| == |after| && cursor - offset + |part| <= |after|
    requires after[..cursor - offset] == before[..cursor - offset]
    requires after[cursor - offset..cursor - offset + |part|] == part
    requires forall k :: 0 <= k < cursor - offset ==> known(offset + k, before[k])
    requires forall k :: 0 <= k < |part| ==> known(cursor + k, part[k])
    ensures forall k :: 0 <= k < cursor - offset + |part| ==> known(offset + k, after[k])
  {
    var written := cursor - offset;
    forall k | 0 <= k < written + |part| ensures known(offset + k, after[k]) {
      if k < written {
        assert after[k] == after[..written][k] == before[..written][k];
      } else {
        var i := k - written;
        assert after[k] == after[written..written + |part|][i] == part[i];
        assert known(cursor + i, part[i]);
      }
    }
  }

  method CopyInto(data: array<Byte>, at: nat, chunk: Bytes, from: nat, count: nat)
    requires at + count <= data.Length && from + count <= |chunk|
    modifies data
    ensures data[..at] == old(data[..at]) && data[at + count..] == old(data[at + count..])
    ensures data[at..at + count] == chunk[from..from + count]
  {
    forall k | 0 <= k < count {
      data[at + k] := chunk[from + k];
    }
  }

  // What a read promises: -1 with an argument out of range; otherwise the slice, at the front
  // of the buffer, or -1 if a chunk could not be verified.
  predicate ReadAnswers(content: Bytes, offset: int, maxSize: int, r: int, before: Bytes, after: Bytes) {
    && |before| == |after|
    && (r == -1 || (0 <= offset <= |content| && 0 <= maxSize && r == Min(maxSize, |content| - offset)))
    && (r >= 0 ==> r <= |after| && after[..r] == content[offset..offset + r] && after[r..] == before[r..])
    && (offset < 0 || maxSize < 0 || offset > |content| ==> after == before)
  }

  // Byte p of a blob of `size` bytes is b: one of the files in `seen` holds an authentic header
  // of that size and, at its place, an authentic record of the chunk with this byte.
  ghost predicate FromBlob(g: Gcm, blobId: Bytes, seen: set<Bytes>, size: int, p: nat, b: Byte) {
    exists file :: file in seen && AuthenticIn(g, blobId, file, size, p, b)
  }

  ghost predicate AuthenticIn(g: Gcm, blobId: Bytes, file: Bytes, size: int, p: nat, b: Byte) {
    match ReadHeader(g, blobId, file)
    case Err(_) => false
    case Ok(Container(h, dataOffset)) => h.plainSize == size && Authentic(g, blobId, file, h, dataOffset, p, b)
  }

  // The cached chunk has its size and was read from a file in `seen`.
  ghost predicate CacheRead(g: Gcm, blobId: Bytes, seen: set<Bytes>, size: int, index: int, chunk: Bytes) {
    index == NO_CHUNK || (0 <= index && 0 < |chunk| == Min(CHUNK_SIZE, size - index * CHUNK_SIZE)
      && exists file :: file in seen && ChunkIn(g, blobId, file, size, index, chunk))
  }

  ghost predicate ChunkIn(g: Gcm, blobId: Bytes, file: Bytes, size: int, index: nat, chunk: Bytes) {
    ReadRange(g, blobId, file, index * CHUNK_SIZE, |chunk|) == Range(Ok(chunk), size)
  }

  // A byte of a cached chunk is authentic.
  lemma CachedByte(g: Gcm, blobId: Bytes, seen: set<Bytes>, size: int, index: nat, chunk: Bytes, k: nat)
    requires CacheRead(g, blobId, seen, size, index, chunk) && k < |chunk|
    ensures FromBlob(g, blobId, seen, size, index * CHUNK_SIZE + k, chunk[k])
  {
    hide ReadRange, ReadHeader, Authentic;
    var file :| file in seen && ChunkIn(g, blobId, file, size, index, chunk);
    RangeIsAuthentic(g, blobId, file, index * CHUNK_SIZE, |chunk|);
    assert AuthenticIn(g, blobId, file, size, index * CHUNK_SIZE + k, chunk[k]);
  }

  // A cached chunk read from files that store `content` is that chunk of it.
  lemma CachedChunk(c: Crypto, blobId: Bytes, seen: set<Bytes>, content: Bytes, index: int, chunk: Bytes)
    requires blobId != [] && CacheRead(c.g, blobId, seen, |content|, index, chunk)
    requires forall file :: file in seen ==> Stored(c, blobId, content, file)
    ensures CacheHolds(content, index, chunk)
  {
    hide ReadRange, Stored;
    if index != NO_CHUNK {
      var file :| file in seen && ChunkIn(c.g, blobId, file, |content|, index, chunk);
      StoredRange(c, blobId, content, file, index * CHUNK_SIZE, |chunk|);
    }
  }

  lemma MoreSeen(g: Gcm, blobId: Bytes, seen: set<Bytes>, more: set<Bytes>, size: int, p: nat, b: Byte)
    requires FromBlob(g, blobId, seen, size, p, b) && seen <= more
    ensures FromBlob(g, blobId, more, size, p, b)
  {
    hide AuthenticIn;
  }

  class LocalManagedMediaSource {
    const crypto: Crypto
    const reference: Reference
    var size: int
    var verifiedChunkIndex: int
    var verifiedChunk: Bytes
    // What was once written under the blob's id, and what the store held whenever it was read.
    ghost const content: Bytes
    ghost var seen: set<Bytes>

    // Nothing is said about what the store holds: the cached chunk is authentic in any case, and
    // if the store held the content whenever it was looked at, it is the chunk of the content.
    ghost predicate Valid()
      reads this
    {
      && reference.blobId != [] && size >= 0
      && CacheRead(crypto.g, reference.blobId, seen, size, verifiedChunkIndex, verifiedChunk)
      && (Intact() ==> size == |content|)
    }

    ghost predicate Intact()
      reads this
    {
      AllStore(seen)
    }

    ghost predicate AllStore(files: set<Bytes>) {
      forall file :: file in files ==> Stored(crypto, reference.blobId, content, file)
    }

    constructor (crypto: Crypto, reference: Reference, ghost content: Bytes)
      ensures this.crypto == crypto && this.reference == reference && this.content == content
      ensures size == 0 && verifiedChunkIndex == NO_CHUNK && seen == {}
    {
      this.crypto, this.reference, this.content := crypto, reference, content;
      size, verifiedChunkIndex, verifiedChunk, seen := 0, NO_CHUNK, [], {};
    }

    ghost predicate HasSize(file: Bytes, size: int) {
      match ReadHeader(crypto.g, reference.blobId, file)
      case Err(_) => false
      case Ok(Container(h, _)) => h.chunkSize == CHUNK_SIZE && h.plainSize == size
    }

    // Opening succeeds exactly if the reference is valid and a blob is there whose header is
    // accepted and says the reference's size. A blob that holds the content has its size.
    method Open(blob: Option<Bytes>) returns (ok: bool)
      modifies this
      ensures ok <==> reference.IsValid() && reference.blobId != [] && blob.Some? && HasSize(blob.value, reference.size)
      ensures ok ==> Valid() && size == reference.size && seen == {blob.value}
      ensures !ok ==> unchanged(this)
      ensures blob.Some? && reference.blobId != [] && Stored(crypto, reference.blobId, content, blob.value) ==>
        (HasSize(blob.value, reference.size) <==> reference.size == |content|)
    {
      hide Stored, ReadRange, ReadHeader;
      if reference.blobId != [] && blob.Some? {
        ProbeReadsHeader(crypto, reference.blobId, blob.value, content);
      }
      if !reference.IsValid() || reference.blobId == [] || blob.None? {
        return false;
      }
      var probe := ReadManagedRange(crypto.g, reference.blobId, blob.value, 0, 0);
      if probe.value.Err? || probe.totalSize != reference.size {
        return false;
      }
      size, verifiedChunkIndex, verifiedChunk, seen := probe.totalSize, NO_CHUNK, [], {blob.value};
      ok := true;
    }

    // The first `written` bytes of the buffer are authentic bytes from `offset` on, and the slice of
    // the content if all files in `files` store it; the rest of the buffer is untouched.
    ghost predicate Delivered(files: set<Bytes>, offset: nat, written: nat, initial: Bytes, buffer: Bytes)
      reads `size
    {
      && written <= |buffer| == |initial| && offset + written <= size && buffer[written..] == initial[written..]
      && (forall k :: 0 <= k < written ==> FromBlob(crypto.g, reference.blobId, files, size, offset + k, buffer[k]))
      && (AllStore(files) && size == |content| ==> buffer[..written] == content[offset..offset + written])
    }

    // `blobs(i)` is what the store holds when chunk i is loaded. Whatever that is, a read delivers
    // only authentic bytes, as many as there are; as long as it is the content, they are its
    // slice, and a read in bounds fails only while the blob is gone.
    method Read(blobs: int -> Option<Bytes>, offset: int, data: array<Byte>, maxSize: int) returns (written: int)
      requires Valid() && maxSize <= data.Length
      modifies `verifiedChunkIndex, `verifiedChunk, `seen, data
      ensures Valid() && old(seen) <= seen && forall file :: file in seen ==> file in old(seen) || exists i :: blobs(i) == Some(file)
      ensures written == -1 || (0 <= offset <= size && 0 <= maxSize && written == Min(maxSize, size - offset))
      ensures written >= 0 ==> Delivered(seen, offset, written, old(data[..]), data[..])
      ensures offset < 0 || maxSize < 0 || offset > size ==> written == -1 && data[..] == old(data[..])
      ensures Intact() ==> ReadAnswers(content, offset, maxSize, written, old(data[..]), data[..])
      ensures Intact() && 0 <= offset <= size && 0 <= maxSize && (forall i :: blobs(i).Some?) ==> written >= 0
    {
      hide Stored, ReadRange, ChunkOf, ChunkCount, CacheRead, Delivered, AllStore, ReadAnswers;
      ghost var initial := data[..];
      if offset < 0 || maxSize < 0 || offset > size {
        Answers(offset, maxSize, -1, initial, data[..]);
        return -1;
      }
      DeliveredNothing(offset, initial);
      var cursor, remaining := offset, Min(maxSize, size - offset);
      written := 0;
      while remaining > 0
        invariant Valid() && old(seen) <= seen
        invariant forall file :: file in seen ==> file in old(seen) || exists i :: blobs(i) == Some(file)
        invariant 0 <= written && 0 <= remaining && cursor == offset + written
        invariant written + remaining == Min(maxSize, size - offset)
        invariant Delivered(seen, offset, written, initial, data[..])
        decreases remaining
      {
        var chunkIndex := cursor / CHUNK_SIZE;
        ghost var seenBefore := seen;
        var ok := EnsureChunk(blobs(chunkIndex), chunkIndex);
        if !ok {
          Answers(offset, maxSize, -1, initial, data[..]);
          return -1;
        }
        var chunkOffset := cursor - chunkIndex * CHUNK_SIZE;
        ChunkSpans(crypto.g, reference.blobId, seen, size, cursor, remaining, verifiedChunk);
        var count := Min(remaining, |verifiedChunk| - chunkOffset);
        if count <= 0 {
          return -1;
        }
        ghost var before := data[..];
        CopyInto(data, written, verifiedChunk, chunkOffset, count);
        CopyDelivers(offset, cursor, count, seenBefore, before, data[..], initial);
        cursor, written, remaining := cursor + count, written + count, remaining - count;
      }
      Answers(offset, maxSize, written, initial, data[..]);
    }

    lemma DeliveredNothing(offset: nat, initial: Bytes)
      requires offset <= size
      ensures Delivered(seen, offset, 0, initial, initial)
    {
      hide Stored, FromBlob;
    }

    lemma Answers(offset: int, maxSize: int, r: int, before: Bytes, after: Bytes)
      requires Valid() && |before| == |after| && (offset < 0 || maxSize < 0 || offset > size ==> r == -1 && after == before)
      requires r == -1 || (0 <= offset && 0 <= maxSize && r == Min(maxSize, size - offset) >= 0
                           && Delivered(seen, offset, r, before, after))
      ensures Intact() ==> ReadAnswers(content, offset, maxSize, r, before, after)
    {
      hide Stored, FromBlob, CacheRead;
    }

    // Copying the cached chunk's bytes at the cursor delivers that many more.
    lemma CopyDelivers(offset: nat, cursor: nat, count: nat, seenBefore: set<Bytes>, before: Bytes, after: Bytes, initial: Bytes)
      requires Valid() && verifiedChunkIndex == cursor / CHUNK_SIZE && seenBefore <= seen
      requires offset <= cursor && 0 < count && cursor + count <= size
      requires |before| == |after| && cursor - offset + count <= |after|
      requires var start := cursor - cursor / CHUNK_SIZE * CHUNK_SIZE;
        0 <= start && start + count <= |verifiedChunk|
        && after[cursor - offset..cursor - offset + count] == verifiedChunk[start..start + count]
      requires var written := cursor - offset;
        && after[..written] == before[..written] && after[written + count..] == before[written + count..]
        && Delivered(seenBefore, offset, written, initial, before)
      ensures Delivered(seen, offset, cursor - offset + count, initial, after)
    {
      hide FromBlob, CacheRead, Stored, ChunkOf, ChunkCount;
      var written := cursor - offset;
      CopiedAuthentic(offset, cursor, count, seenBefore, before, after);
      assert after[written + count..] == before[written..][count..] == initial[written..][count..];
      if AllStore(seen) && size == |content| {
        CachedChunk(crypto, reference.blobId, seen, content, verifiedChunkIndex, verifiedChunk);
        ChunkSlice(content, cursor, count);
        CopyContinues(content, offset, written, count, after, before, initial);
      }
    }

    // The bytes copied from the cached chunk are authentic, and those before stay so.
    lemma CopiedAuthentic(offset: nat, cursor: nat, count: nat, seenBefore: set<Bytes>, before: Bytes, after: Bytes)
      requires Valid() && verifiedChunkIndex == cursor / CHUNK_SIZE && seenBefore <= seen && offset <= cursor
      requires |before| == |after| && cursor - offset + count <= |after|
      requires var start := cursor - cursor / CHUNK_SIZE * CHUNK_SIZE;
        0 <= start && start + count <= |verifiedChunk|
        && after[cursor - offset..cursor - offset + count] == verifiedChunk[start..start + count]
      requires after[..cursor - offset] == before[..cursor - offset]
      requires forall k :: 0 <= k < cursor - offset ==> FromBlob(crypto.g, reference.blobId, seenBefore, size, offset + k, before[k])
      ensures forall k :: 0 <= k < cursor - offset + count ==>
        FromBlob(crypto.g, reference.blobId, seen, size, offset + k, after[k])
    {
      hide FromBlob, CacheRead, Stored;
      var index := cursor / CHUNK_SIZE;
      var start := cursor - index * CHUNK_SIZE;
      var files, total := seen, size;
      var known := (p: nat, b: Byte) => FromBlob(crypto.g, reference.blobId, files, total, p, b);
      forall k | 0 <= k < cursor - offset ensures known(offset + k, before[k]) {
        MoreSeen(crypto.g, reference.blobId, seenBefore, seen, size, offset + k, before[k]);
      }
      var part := verifiedChunk[start..start + count];
      forall k | 0 <= k < |part| ensures known(cursor + k, part[k]) {
        CachedByte(crypto.g, reference.blobId, seen, size, index, verifiedChunk, start + k);
        assert index * CHUNK_SIZE + (start + k) == cursor + k;
      }
      CopiedBytes(known, offset, cursor, part, before, after);
      assert forall k :: 0 <= k < cursor - offset + count ==> known(offset + k, after[k]);
    }

    // Only an authentic chunk replaces the cached one; it can always be loaded while the blob is
    // there and holds the content.
    method EnsureChunk(blob: Option<Bytes>, index: int) returns (ok: bool)
      requires Valid()
      modifies `verifiedChunkIndex, `verifiedChunk, `seen
      ensures Valid() && old(seen) <= seen && forall file :: file in seen ==> file in old(seen) || blob == Some(file)
      ensures ok && index >= 0 ==> verifiedChunkIndex == index
      ensures !ok ==> verifiedChunkIndex == old(verifiedChunkIndex) && verifiedChunk == old(verifiedChunk)
      ensures Intact() && 0 <= index && index * CHUNK_SIZE < size && blob.Some? ==> ok
    {
      hide Stored, ReadRange;
      if index == verifiedChunkIndex {
        return true;
      }
      if index < 0 {
        return false;
      }
      var chunkStart := index * CHUNK_SIZE;
      if chunkStart >= size {
        return false;
      }
      if blob.None? {
        return false;
      }
      var expected := Min(CHUNK_SIZE, size - chunkStart);
      var loaded := ReadManagedRange(crypto.g, reference.blobId, blob.value, chunkStart, expected);
      StillCached(crypto.g, reference.blobId, seen, blob.value, size, verifiedChunkIndex, verifiedChunk);
      seen := seen + {blob.value};
      if Intact() {
        StoredRange(crypto, reference.blobId, content, blob.value, chunkStart, expected);
      }
      if loaded.value.Err? || loaded.totalSize != size || |loaded.value.value| != expected {
        return false;
      }
      assert ChunkIn(crypto.g, reference.blobId, blob.value, size, index, loaded.value.value);
      verifiedChunkIndex, verifiedChunk := index, loaded.value.value;
      ok := true;
    }
  }

  lemma StillCached(g: Gcm, blobId: Bytes, seen: set<Bytes>, file: Bytes, size: int, index: int, chunk: Bytes)
    requires CacheRead(g, blobId, seen, size, index, chunk)
    ensures CacheRead(g, blobId, seen + {file}, size, index, chunk)
  {
    hide ChunkIn;
  }

  // The chunk that covers the cursor holds at least one byte from there on.
  lemma ChunkSpans(g: Gcm, blobId: Bytes, seen: set<Bytes>, size: int, cursor: nat, remaining: nat, chunk: Bytes)
    requires 0 < remaining && cursor + remaining <= size && CacheRead(g, blobId, seen, size, cursor / CHUNK_SIZE, chunk)
    ensures 0 <= cursor - cursor / CHUNK_SIZE * CHUNK_SIZE < |chunk|
    ensures |chunk| <= size - cursor / CHUNK_SIZE * CHUNK_SIZE
  {
    hide ChunkIn;
    assert cursor < cursor / CHUNK_SIZE * CHUNK_SIZE + CHUNK_SIZE;
  }

  // Reading nothing from the front looks at the header only.
  lemma ProbeReadsHeader(c: Crypto, blobId: Bytes, file: Bytes, content: Bytes)
    requires blobId != []
    ensures var probe := ReadRange(c.g, blobId, file, 0, 0);
      var header := ReadHeader(c.g, blobId, file);
      && (probe.value.Ok? <==> header.Ok? && header.value.header.chunkSize == CHUNK_SIZE)
      && (probe.value.Ok? ==> probe.totalSize == header.value.header.plainSize)
      && (Stored(c, blobId, content, file) ==> probe.value.Ok? && probe.totalSize == |content|)
  {
    hide Stored, ReadHeader;
    if Stored(c, blobId, content, file) {
      StoredRange(c, blobId, content, file, 0, 0);
    }
  }

  lemma SameStride(stride: nat, cursor: nat)
    requires stride == CHUNK_SIZE
    ensures cursor / stride == cursor / CHUNK_SIZE && cursor / stride * stride == cursor / CHUNK_SIZE * CHUNK_SIZE
  {
  }

  lemma ChunkSlice(content: Bytes, cursor: nat, count: nat)
    requires 0 < count && cursor + count <= |content| && cursor / CHUNK_SIZE < ChunkCount(|content|)
    requires count <= |ChunkOf(content, cursor / CHUNK_SIZE)| - (cursor - cursor / CHUNK_SIZE * CHUNK_SIZE)
    ensures var start := cursor - cursor / CHUNK_SIZE * CHUNK_SIZE;
      0 <= start && ChunkOf(content, cursor / CHUNK_SIZE)[start..start + count] == content[cursor..cursor + count]
  {
    ChunkHolds(content, cursor, count);
  }

  // What a look at an external file finds: its state under its path, and the bytes the handle
  // opened earlier delivers. The path may meanwhile name another file.
  datatype View = View(isFile: bool, size: int, modified: int, handle: Bytes)

  predicate SameRevision(s: Source, v: View) {
    v.isFile && v.size == s.size && v.modified == s.modified
  }

  function HandleRead(handle: Bytes, at: nat, count: nat): Bytes {
    if at >= |handle| then [] else handle[at..Min(at + count, |handle|)]
  }

  // Chunk `index` can be told from any other byte string by its recorded hash.
  ghost predicate HashIdentifies(c: Crypto, s: Source, content: Bytes, index: nat)
    requires index < ChunkCount(|content|) == |s.chunkHashes|
  {
    forall chunk: Bytes :: c.sha(chunk) == s.chunkHashes[index] ==> chunk == ChunkOf(content, index)
  }

  // Either the file is the linked one whenever its size and time stamp say so, or its recorded
  // hashes tell.
  ghost predicate Faithful(c: Crypto, s: Source, content: Bytes, v: View)
    requires s.chunkSize == CHUNK_SIZE && s.size == |content|
  {
    || (SameRevision(s, v) ==> v.handle == content)
    || (HasFingerprint(s) && forall i :: 0 <= i < ChunkCount(|content|) ==> HashIdentifies(c, s, content, i))
  }

  // The file is untouched, and its fingerprint, if it has one, is that of the content.
  ghost predicate Untouched(c: Crypto, s: Source, content: Bytes, v: View)
    requires s.chunkSize == CHUNK_SIZE && s.size == |content|
  {
    SameRevision(s, v) && v.handle == content && (HasFingerprint(s) ==> ChunksMatch(c.sha, s, content, 0))
  }

  // Chunk `index` as a view delivers it: the file still has the linked revision and, where a
  // fingerprint is known, the chunk has the recorded hash.
  predicate ChunkOfView(c: Crypto, s: Source, v: View, index: nat, chunk: Bytes) {
    && SameRevision(s, v) && s.chunkSize == CHUNK_SIZE
    && 0 < |chunk| == Min(CHUNK_SIZE, s.size - index * CHUNK_SIZE)
    && chunk == HandleRead(v.handle, index * CHUNK_SIZE, |chunk|)
    && (HasFingerprint(s) ==> c.sha(chunk) == s.chunkHashes[index])
  }

  // Byte p comes from such a chunk of one of the views.
  ghost predicate FromFile(c: Crypto, s: Source, seen: set<View>, p: nat, b: Byte) {
    exists v, chunk :: v in seen && ChunkOfView(c, s, v, p / CHUNK_SIZE, chunk)
      && p % CHUNK_SIZE < |chunk| && chunk[p % CHUNK_SIZE] == b
  }

  ghost predicate CacheFromFile(c: Crypto, s: Source, seen: set<View>, index: int, chunk: Bytes) {
    index == NO_CHUNK || (0 <= index && exists v :: v in seen && ChunkOfView(c, s, v, index, chunk))
  }

  lemma CachedFileByte(c: Crypto, s: Source, seen: set<View>, index: nat, chunk: Bytes, k: nat)
    requires CacheFromFile(c, s, seen, index, chunk) && k < |chunk|
    ensures FromFile(c, s, seen, index * CHUNK_SIZE + k, chunk[k])
  {
    hide ChunkOfView;
    var v :| v in seen && ChunkOfView(c, s, v, index, chunk);
    ChunkIsShort(c, s, v, index, chunk);
    var p := index * CHUNK_SIZE + k;
    assert p / CHUNK_SIZE == index && p % CHUNK_SIZE == k;
  }

  lemma ChunkIsShort(c: Crypto, s: Source, v: View, index: nat, chunk: Bytes)
    requires ChunkOfView(c, s, v, index, chunk)
    ensures 0 < |chunk| == Min(CHUNK_SIZE, s.size - index * CHUNK_SIZE)
  {
    hide HasFingerprint;
  }

  // From views that are faithful to the linked content it is that chunk of the content.
  lemma FaithfulChunk(c: Crypto, s: Source, seen: set<View>, content: Bytes, index: int, chunk: Bytes)
    requires s.chunkSize == CHUNK_SIZE && s.size == |content| && CacheFromFile(c, s, seen, index, chunk)
    requires forall v :: v in seen ==> Faithful(c, s, content, v)
    ensures CacheHolds(content, index, chunk)
  {
    if index != NO_CHUNK {
      var v :| v in seen && ChunkOfView(c, s, v, index, chunk);
      assert Faithful(c, s, content, v);
      if v.handle != content {
        assert HashIdentifies(c, s, content, index);
      }
    }
  }

  lemma MoreViews(c: Crypto, s: Source, seen: set<View>, more: set<View>, p: nat, b: Byte)
    requires FromFile(c, s, seen, p, b) && seen <= more
    ensures FromFile(c, s, more, p, b)
  {
    hide ChunkOfView;
  }

  lemma StillFromFile(c: Crypto, s: Source, seen: set<View>, v: View, index: int, chunk: Bytes)
    requires CacheFromFile(c, s, seen, index, chunk)
    ensures CacheFromFile(c, s, seen + {v}, index, chunk)
  {
    hide ChunkOfView;
  }

  class ExternalFileMediaSource {
    const crypto: Crypto
    const reference: Reference
    var source: Source
    var verifiedChunkIndex: int
    var verifiedChunk: Bytes
    // The content the source was linked with, and what was found whenever a chunk was loaded.
    ghost var content: Bytes
    ghost var seen: set<View>

    ghost predicate Valid()
      reads this
    {
      && source.chunkSize == CHUNK_SIZE && source.size == |content|
      && CacheFromFile(crypto, source, seen, verifiedChunkIndex, verifiedChunk)
    }

    // Whenever the file was looked at, it was the linked one if its size and time stamp said so, or
    // its recorded hashes tell the linked content from any other.
    ghost predicate AllFaithful(views: set<View>)
      requires source.chunkSize == CHUNK_SIZE && source.size == |content|
      reads `source, `content
    {
      forall v :: v in views ==> Faithful(crypto, source, content, v)
    }

    constructor (crypto: Crypto, reference: Reference)
      ensures this.crypto == crypto && this.reference == reference
    {
      this.crypto, this.reference := crypto, reference;
      source, verifiedChunkIndex, verifiedChunk := Source("", 0, 0, [], [], CHUNK_SIZE, []), NO_CHUNK, [];
      content, seen := [], {};
    }

    // Opening finds the source through its locator and links the content that is there now.
    method Open(d: Disk, opens: bool) returns (ok: bool)
      modifies this
      ensures ok <==> ExternalSource(d, reference).Ok? && opens
      ensures ok ==> Valid() && source == ExternalSource(d, reference).value
      ensures ok ==> content == d.files[source.fileName].content && seen == {}
    {
      hide ExternalSource, CacheHolds;
      if !reference.IsValid() {
        InvalidHasNoSource(d, reference);
        return false;
      }
      var found := ExternalSource(d, reference);
      if found.Err? || !opens {
        return false;
      }
      LoadedSourcesAreValid(d, reference);
      source, verifiedChunkIndex, verifiedChunk := found.value, NO_CHUNK, [];
      content, seen := d.files[source.fileName].content, {};
      ok := true;
    }

    // The first `written` bytes of the buffer come from chunks of the linked revision, with their
    // recorded hashes, and are the slice of the content if all views are faithful to it; the rest
    // of the buffer is untouched.
    ghost predicate Delivered(views: set<View>, offset: nat, written: nat, initial: Bytes, buffer: Bytes)
      requires source.chunkSize == CHUNK_SIZE && source.size == |content|
      reads `source, `content
    {
      && written <= |buffer| == |initial| && offset + written <= |content| && buffer[written..] == initial[written..]
      && (forall k :: 0 <= k < written ==> FromFile(crypto, source, views, offset + k, buffer[k]))
      && (AllFaithful(views) ==> buffer[..written] == content[offset..offset + written])
    }

    // `views(i)` is what is found when chunk i is loaded. Whatever that is, a read delivers only bytes
    // of the linked revision with the recorded hashes, as many as there are; as long as the views are
    // faithful, they are the slice of the linked content. A read in bounds of an untouched file
    // never fails.
    method Read(views: int -> View, offset: int, data: array<Byte>, maxSize: int) returns (written: int)
      requires Valid() && maxSize <= data.Length
      modifies `verifiedChunkIndex, `verifiedChunk, `seen, data
      ensures Valid() && old(seen) <= seen && forall v :: v in seen ==> v in old(seen) || exists i :: views(i) == v
      ensures written == -1 || (0 <= offset <= source.size && 0 <= maxSize && written == Min(maxSize, source.size - offset))
      ensures written >= 0 ==> Delivered(seen, offset, written, old(data[..]), data[..])
      ensures AllFaithful(seen) ==> ReadAnswers(content, offset, maxSize, written, old(data[..]), data[..])
      ensures (forall i :: Untouched(crypto, source, content, views(i))) && 0 <= offset <= source.size && 0 <= maxSize ==>
        written >= 0
    {
      hide ChunkOf, ChunkCount, HasFingerprint, Untouched, CacheFromFile, Delivered, AllFaithful, ReadAnswers;
      ghost var initial := data[..];
      if offset < 0 || maxSize < 0 || offset > source.size {
        Answers(offset, maxSize, -1, initial, data[..]);
        return -1;
      }
      DeliveredNothing(offset, initial);
      var cursor, remaining := offset, Min(maxSize, source.size - offset);
      written := 0;
      while remaining > 0
        invariant Valid() && old(seen) <= seen
        invariant forall v :: v in seen ==> v in old(seen) || exists i :: views(i) == v
        invariant 0 <= written && 0 <= remaining && cursor == offset + written
        invariant written + remaining == Min(maxSize, source.size - offset)
        invariant Delivered(seen, offset, written, initial, data[..])
        decreases remaining
      {
        var chunkIndex := cursor / source.chunkSize;
        SameStride(source.chunkSize, cursor);
        ChunkCovers(content, cursor, remaining);
        ghost var seenBefore := seen;
        var ok := EnsureChunk(views(chunkIndex), chunkIndex);
        if !ok {
          Answers(offset, maxSize, -1, initial, data[..]);
          return -1;
        }
        var chunkOffset := cursor - chunkIndex * source.chunkSize;
        FileChunkSpans(crypto, source, seen, cursor, remaining, verifiedChunk);
        var count := Min(remaining, |verifiedChunk| - chunkOffset);
        if count <= 0 {
          return -1;
        }
        ghost var before := data[..];
        CopyInto(data, written, verifiedChunk, chunkOffset, count);
        CopyDelivers(offset, cursor, count, seenBefore, before, data[..], initial);
        cursor, written, remaining := cursor + count, written + count, remaining - count;
      }
      Answers(offset, maxSize, written, initial, data[..]);
    }

    lemma DeliveredNothing(offset: nat, initial: Bytes)
      requires Valid() && offset <= source.size
      ensures Delivered(seen, offset, 0, initial, initial)
    {
      hide FromFile, CacheFromFile, AllFaithful;
    }

    lemma Answers(offset: int, maxSize: int, r: int, before: Bytes, after: Bytes)
      requires Valid() && |before| == |after| && (offset < 0 || maxSize < 0 || offset > source.size ==> r == -1 && after == before)
      requires r == -1 || (0 <= offset && 0 <= maxSize && r == Min(maxSize, source.size - offset) >= 0
                           && Delivered(seen, offset, r, before, after))
      ensures AllFaithful(seen) ==> ReadAnswers(content, offset, maxSize, r, before, after)
    {
      hide FromFile, CacheFromFile, AllFaithful;
    }

    // Copying the cached chunk's bytes at the cursor delivers that many more.
    lemma CopyDelivers(offset: nat, cursor: nat, count: nat, seenBefore: set<View>, before: Bytes, after: Bytes, initial: Bytes)
      requires Valid() && verifiedChunkIndex == cursor / CHUNK_SIZE && seenBefore <= seen
      requires offset <= cursor && 0 < count && cursor + count <= |content|
      requires |before| == |after| && cursor - offset + count <= |after|
      requires var start := cursor - cursor / CHUNK_SIZE * CHUNK_SIZE;
        0 <= start && start + count <= |verifiedChunk|
        && after[cursor - offset..cursor - offset + count] == verifiedChunk[start..start + count]
      requires var written := cursor - offset;
        && after[..written] == before[..written] && after[written + count..] == before[written + count..]
        && Delivered(seenBefore, offset, written, initial, before)
      ensures Delivered(seen, offset, cursor - offset + count, initial, after)
    {
      hide FromFile, CacheFromFile, Faithful, ChunkOf, ChunkCount;
      var written := cursor - offset;
      CopiedFromFile(offset, cursor, count, seenBefore, before, after);
      assert after[written + count..] == before[written..][count..] == initial[written..][count..];
      if AllFaithful(seen) {
        FaithfulChunk(crypto, source, seen, content, verifiedChunkIndex, verifiedChunk);
        ChunkSlice(content, cursor, count);
        CopyContinues(content, offset, written, count, after, before, initial);
      }
    }

    lemma CopiedFromFile(offset: nat, cursor: nat, count: nat, seenBefore: set<View>, before: Bytes, after: Bytes)
      requires Valid() && verifiedChunkIndex == cursor / CHUNK_SIZE && seenBefore <= seen && offset <= cursor
      requires |before| == |after| && cursor - offset + count <= |after|
      requires var start := cursor - cursor / CHUNK_SIZE * CHUNK_SIZE;
        0 <= start && start + count <= |verifiedChunk|
        && after[cursor - offset..cursor - offset + count] == verifiedChunk[start..start + count]
      requires after[..cursor - offset] == before[..cursor - offset]
      requires forall k :: 0 <= k < cursor - offset ==> FromFile(crypto, source, seenBefore, offset + k, before[k])
      ensures forall k :: 0 <= k < cursor - offset + count ==> FromFile(crypto, source, seen, offset + k, after[k])
    {
      hide FromFile, CacheFromFile;
      var index := cursor / CHUNK_SIZE;
      var start := cursor - index * CHUNK_SIZE;
      var linked, views := source, seen;
      var known := (p: nat, b: Byte) => FromFile(crypto, linked, views, p, b);
      forall k | 0 <= k < cursor - offset ensures known(offset + k, before[k]) {
        MoreViews(crypto, source, seenBefore, seen, offset + k, before[k]);
      }
      var part := verifiedChunk[start..start + count];
      forall k | 0 <= k < |part| ensures known(cursor + k, part[k]) {
        CachedFileByte(crypto, source, seen, index, verifiedChunk, start + k);
        assert index * CHUNK_SIZE + (start + k) == cursor + k;
      }
      CopiedBytes(known, offset, cursor, part, before, after);
      assert forall k :: 0 <= k < cursor - offset + count ==> known(offset + k, after[k]);
    }

    // Whatever is found, a chunk is cached only if the file still has the linked revision and, where
    // a fingerprint is known, the chunk has the recorded hash; an untouched file always qualifies.
    method EnsureChunk(v: View, index: int) returns (ok: bool)
      requires Valid()
      modifies `verifiedChunkIndex, `verifiedChunk, `seen
      ensures Valid() && old(seen) <= seen && forall w :: w in seen ==> w in old(seen) || w == v
      ensures ok && index >= 0 ==> verifiedChunkIndex == index
      ensures !ok ==> verifiedChunkIndex == old(verifiedChunkIndex) && verifiedChunk == old(verifiedChunk)
      ensures 0 <= index < ChunkCount(|content|) && Untouched(crypto, source, content, v) ==> ok
    {
      hide CacheFromFile;
      if index == verifiedChunkIndex {
        return true;
      }
      var chunkCount := if source.size == 0 then 0 else (source.size + source.chunkSize - 1) / source.chunkSize;
      if index < 0 || index >= chunkCount {
        return false;
      }
      StillFromFile(crypto, source, seen, v, verifiedChunkIndex, verifiedChunk);
      seen := seen + {v};
      if !SameRevision(source, v) {
        return false;
      }
      var chunkStart := index * source.chunkSize;
      var expected := Min(source.chunkSize, source.size - chunkStart);
      var chunk := HandleRead(v.handle, chunkStart, expected);
      if |chunk| != expected {
        return false;
      }
      assert v.handle == content ==> chunk == ChunkOf(content, index);
      if HasFingerprint(source) && crypto.sha(chunk) != source.chunkHashes[index] {
        return false;
      }
      Cached(crypto, source, seen, v, index, chunk);
      verifiedChunkIndex, verifiedChunk := index, chunk;
      ok := true;
    }
  }

  lemma Cached(c: Crypto, s: Source, seen: set<View>, v: View, index: nat, chunk: Bytes)
    requires v in seen && ChunkOfView(c, s, v, index, chunk)
    ensures CacheFromFile(c, s, seen, index, chunk)
  {
    hide ChunkOfView;
  }

  lemma InvalidHasNoSource(d: Disk, r: Reference)
    requires !r.IsValid()
    ensures ExternalSource(d, r).Err?
  {
    hide LoadExternalSource;
  }

  lemma FileChunkSpans(c: Crypto, s: Source, seen: set<View>, cursor: nat, remaining: nat, chunk: Bytes)
    requires 0 < remaining && cursor + remaining <= s.size && CacheFromFile(c, s, seen, cursor / CHUNK_SIZE, chunk)
    ensures 0 <= cursor - cursor / CHUNK_SIZE * CHUNK_SIZE < |chunk|
    ensures |chunk| <= s.size - cursor / CHUNK_SIZE * CHUNK_SIZE
  {
    hide ChunkOfView;
    var v :| v in seen && ChunkOfView(c, s, v, cursor / CHUNK_SIZE, chunk);
    ChunkIsShort(c, s, v, cursor / CHUNK_SIZE, chunk);
    assert cursor < cursor / CHUNK_SIZE * CHUNK_SIZE + CHUNK_SIZE;
  }
}
