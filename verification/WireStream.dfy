// The seekable stream of the wire object, made on demand from a source of the plaintext, with a
// cache of one record and a hash of what is read in sequence from the start.
module WireStream {
  import opened Basics
  import opened Envelope
  import opened Wire
  import opened WireRecords
  import MediaSources

  // The cache's "no chunk": never a chunk index, since there are at most 2^64 - 1 chunks.
  const NO_RECORD: UInt64 := MAX_UINT64

  // What a local source answers for the range of a chunk is that chunk.
  lemma SourceReadIsChunk(o: Object, index: UInt64, r: int, before: Bytes, after: Bytes)
    requires ObjectValid(o) && index < ChunkCount(o.p)
    requires 0 <= r && |before| == |after|
    requires MediaSources.ReadAnswers(o.plain, index * o.p.chunkSize, SizeOf(o.p.plainSize, o.p.chunkSize, index), r, before, after)
    ensures r == SizeOf(o.p.plainSize, o.p.chunkSize, index) && after[..r] == PlainChunk(o, index)
  {
    hide ChunkCount, WireSize;
    WireSizeIsExact(o.p);
    SizesAreExact(o.p, index);
    SizeIsPositive(o.p, index);
  }

  // Every byte of `data` is the byte of the wire object at its position.
  ghost predicate IsPart(o: Object, start: nat, data: Bytes)
    requires ObjectValid(o) && start + |data| <= MAX_UINT64
  {
    forall k :: 0 <= k < |data| ==> WireByte(o, start + k) == Some(data[k])
  }

  lemma PartGrows(o: Object, start: nat, data: Bytes, more: Bytes)
    requires ObjectValid(o) && start + |data| + |more| <= MAX_UINT64
    requires IsPart(o, start, data) && IsPart(o, start + |data|, more)
    ensures IsPart(o, start, data + more)
  {
    hide WireByte, WireSize;
    forall k | 0 <= k < |data + more| ensures WireByte(o, start + k) == Some((data + more)[k]) {
      if k >= |data| {
        assert WireByte(o, start + |data| + (k - |data|)) == Some(more[k - |data|]);
      }
    }
  }

  // Where a position falls within its record, and what is there.
  lemma PartOfRecord(o: Object, cursor: UInt64, remaining: nat)
    requires ObjectValid(o) && 0 < remaining && cursor + remaining <= WireSize(o.p).value
    ensures var index := cursor / Stride(o.p);
      && ChunkIndexForWireOffset(o.p, cursor) == Some(index) && index < ChunkCount(o.p)
      && WireChunkOffset(o.p, index) == Some(index * Stride(o.p)) && index * Stride(o.p) <= cursor
      && (Record(o, index).Ok? ==>
            var within := cursor - index * Stride(o.p);
            && within < |Record(o, index).value|
            && var count := Min(remaining, |Record(o, index).value| - within);
               IsPart(o, cursor, Record(o, index).value[within..within + count]))
  {
    hide ChunkCount, WireSize, SizeOf, Record, WireByte, ChunkIndexForWireOffset, WireChunkOffset;
    IndexCovers(o.p, cursor);
    var index := cursor / Stride(o.p);
    RecordsTile(o.p, index);
    if Record(o, index).Ok? {
      RecordLength(o, index);
      var record, within := Record(o, index).value, cursor - index * Stride(o.p);
      var count := Min(remaining, |record| - within);
      var part := record[within..within + count];
      forall k | 0 <= k < |part| ensures WireByte(o, cursor + k) == Some(part[k]) {
        ByteOfRecord(o, index, within + k, cursor + k);
      }
    }
  }

  class MediaChunkWireStream {
    const g: Gcm
    const parameters: Parameters
    const sha: Bytes -> Bytes
    // The content of the source.
    ghost const plain: Bytes

    // -1 while closed.
    var wireSize: int
    var position: int
    var cachedChunkIndex: UInt64
    var cachedWireChunk: Bytes
    // The incremental hash, as the bytes added to it.
    var hashed: Bytes
    var hashPosition: int
    var hashValid: bool
    var completedHash: Bytes

    ghost function Sent(): Object {
      Object(g, parameters, plain)
    }

    ghost predicate Valid()
      reads this
    {
      if wireSize == -1 then completedHash == []
      else
        && ObjectValid(Sent()) && wireSize == WireSize(parameters).value <= MAX_INT64
        && 0 <= position <= wireSize
        && CacheValid() && HashValid()
    }

    ghost predicate CacheValid()
      requires ObjectValid(Sent())
      reads this
    {
      cachedChunkIndex != NO_RECORD ==>
        cachedChunkIndex < ChunkCount(parameters) && Record(Sent(), cachedChunkIndex) == Ok(cachedWireChunk)
    }

    // The hash covers the object from its start up to the position, or nothing.
    ghost predicate HashValid()
      requires ObjectValid(Sent()) && wireSize <= MAX_INT64
      reads this
    {
      && hashPosition == |hashed| <= wireSize && IsPart(Sent(), 0, hashed)
      && (hashValid ==> hashPosition == position)
      && (!hashValid ==> hashed == [])
      && completedHash == (if hashValid && hashPosition == wireSize then sha(hashed) else [])
    }

    constructor (g: Gcm, parameters: Parameters, sha: Bytes -> Bytes, ghost plain: Bytes)
      ensures Valid() && wireSize == -1
      ensures this.g == g && this.parameters == parameters && this.sha == sha && this.plain == plain
    {
      this.g, this.parameters, this.sha, this.plain := g, parameters, sha, plain;
      wireSize, position, cachedChunkIndex, cachedWireChunk := -1, 0, NO_RECORD, [];
      hashed, hashPosition, hashValid, completedHash := [], 0, true, [];
    }

    // `sourceSize` is the size of the source if it opens.
    method Open(readOnly: bool, sourceSize: Option<nat>) returns (ok: bool)
      requires Valid() && (sourceSize.Some? ==> sourceSize.value == |plain|)
      modifies this
      ensures Valid()
      ensures ok <==> readOnly && WireSize(parameters).Some? && WireSize(parameters).value <= MAX_INT64
                      && sourceSize == Some(parameters.plainSize)
      ensures ok ==> wireSize >= 0 && position == 0 && hashValid && hashed == []
    {
      hide WireSize, WireByte;
      if !readOnly || !IsValid(parameters) {
        WireSizeIsExact(parameters);
        return false;
      }
      var size := WireSize(parameters);
      if size.None? || size.value > MAX_INT64 {
        return false;
      }
      if sourceSize.None? || sourceSize.value != parameters.plainSize {
        return false;
      }
      WireIsNotEmpty(parameters);
      wireSize, position, cachedChunkIndex, cachedWireChunk := size.value, 0, NO_RECORD, [];
      hashed, hashPosition, hashValid, completedHash := [], 0, true, [];
      ok := true;
    }

    method Close()
      requires Valid()
      modifies this
      ensures Valid() && wireSize == -1
    {
      wireSize, position, cachedChunkIndex, cachedWireChunk := -1, 0, NO_RECORD, [];
      InvalidateHash();
    }

    method InvalidateHash()
      modifies `hashed, `hashPosition, `hashValid, `completedHash
      ensures hashed == [] && hashPosition == 0 && !hashValid && completedHash == []
    {
      hashed, hashPosition, hashValid, completedHash := [], 0, false, [];
    }

    function Size(): (size: int)
      reads this
    {
      if wireSize < 0 then 0 else wireSize
    }

    // Seeking away ends the hashing for as long as the stream stays open.
    method Seek(target: int) returns (ok: bool)
      requires Valid()
      modifies `position, `hashed, `hashPosition, `hashValid, `completedHash
      ensures Valid()
      ensures ok <==> wireSize >= 0 && 0 <= target <= wireSize
      ensures ok ==> position == target && (hashValid <==> old(hashValid) && target == old(position))
      ensures !ok && wireSize >= 0 ==> unchanged(this)
    {
      hide WireByte, WireSize;
      if target < 0 || target > Size() {
        return false;
      }
      if target != position {
        InvalidateHash();
      }
      if wireSize >= 0 {
        position := target;
      }
      ok := wireSize >= 0;
    }

    // The source delivers every chunk; what it delivers is the chunk.
    ghost predicate Delivers(source: UInt64 -> Option<Bytes>) {
      forall i: UInt64 :: i < ChunkCount(parameters) ==> source(i).Some?
    }

    ghost predicate Faithful(source: UInt64 -> Option<Bytes>)
      requires ObjectValid(Sent())
    {
      forall i: UInt64 :: i < ChunkCount(parameters) && source(i).Some? ==> source(i).value == PlainChunk(Sent(), i)
    }

    // QIODevice::read without its buffer: the position advances by what was read. `source(i)`
    // is what the source delivers for chunk i.
    method Read(source: UInt64 -> Option<Bytes>, data: array<Byte>, maxSize: int) returns (read: int)
      requires Valid() && maxSize <= data.Length
      requires ObjectValid(Sent()) ==> Faithful(source)
      modifies this, data
      ensures Valid() && wireSize == old(wireSize)
      // What a read returns.
      ensures read == -1 || (wireSize >= 0 && 0 <= maxSize && read == Min(maxSize, wireSize - old(position)))
      ensures read > 0 ==> IsPart(Sent(), old(position), data[..read])
      ensures data[Max(0, read)..] == old(data[..])[Max(0, read)..] || read == -1
      ensures position == old(position) + Max(0, read)
      // When it returns it.
      ensures wireSize >= 0 && 0 <= maxSize && AllEncrypt(Sent()) && Delivers(source) ==> read >= 0
      // What it does to the hash.
      ensures hashValid == old(hashValid)
      ensures hashed == if old(hashValid) && read > 0 then old(hashed) + data[..read] else old(hashed)
    {
      hide WireByte, WireSize, ChunkCount, Record, IsPart;
      read := ReadData(source, data, maxSize);
      if read > 0 {
        ObserveRead(position, data[..read]);
        position := position + read;
      }
    }

    method ReadData(source: UInt64 -> Option<Bytes>, data: array<Byte>, maxSize: int) returns (written: int)
      requires Valid() && maxSize <= data.Length
      requires ObjectValid(Sent()) ==> Faithful(source)
      modifies `cachedChunkIndex, `cachedWireChunk, data
      ensures Valid()
      ensures written == -1 || (wireSize >= 0 && 0 <= maxSize && written == Min(maxSize, wireSize - position))
      ensures written > 0 ==> IsPart(Sent(), position, data[..written])
      ensures data[Max(0, written)..] == old(data[..])[Max(0, written)..] || written == -1
      ensures wireSize >= 0 && 0 <= maxSize && AllEncrypt(Sent()) && Delivers(source) ==> written >= 0
    {
      hide WireByte, WireSize, ChunkCount, Record, IsPart, ChunkIndexForWireOffset, WireChunkOffset, HashValid, AllEncrypt;
      if wireSize < 0 || maxSize < 0 {
        return -1;
      }
      ghost var initial := data[..];
      var start := position;
      var remaining := Min(maxSize, wireSize - start);
      if remaining <= 0 {
        return 0;
      }
      var cursor := start;
      written := 0;
      EmptyPart(Sent(), start);
      while remaining > 0
        invariant Valid() && 0 <= written && 0 <= remaining && cursor == start + written
        invariant written + remaining == Min(maxSize, wireSize - start)
        invariant IsPart(Sent(), start, data[..written]) && data[written..] == initial[written..]
        decreases remaining
      {
        PartOfRecord(Sent(), cursor, remaining);
        var chunkIndex := ChunkIndexForWireOffset(parameters, cursor);
        if chunkIndex.None? {
          return -1;
        }
        var ok := EnsureWireChunk(chunkIndex.value, source(chunkIndex.value));
        if !ok {
          AllEncryptMeansEach(Sent(), chunkIndex.value);
          return -1;
        }
        var chunkStart := WireChunkOffset(parameters, chunkIndex.value);
        if chunkStart.None? || cursor < chunkStart.value {
          return -1;
        }
        var within := cursor - chunkStart.value;
        if within >= |cachedWireChunk| {
          return -1;
        }
        var count := Min(remaining, |cachedWireChunk| - within);
        ghost var before := data[..];
        MediaSources.CopyInto(data, written, cachedWireChunk, within, count);
        PartGrows(Sent(), start, before[..written], cachedWireChunk[within..within + count]);
        assert data[..written + count] == data[..written] + data[written..written + count];
        assert before[written + count..] == before[written..][count..] && initial[written + count..] == initial[written..][count..];
        cursor, written, remaining := cursor + count, written + count, remaining - count;
      }
    }

    method EnsureWireChunk(index: UInt64, source: Option<Bytes>) returns (ok: bool)
      requires Valid() && wireSize >= 0
      requires index < ChunkCount(parameters) && source.Some? ==> source.value == PlainChunk(Sent(), index)
      modifies `cachedChunkIndex, `cachedWireChunk
      ensures Valid()
      ensures ok && index < ChunkCount(parameters) ==> Record(Sent(), index) == Ok(cachedWireChunk)
      ensures index < ChunkCount(parameters) && source.Some? && Record(Sent(), index).Ok? ==> ok
    {
      hide WireByte, WireSize, ChunkCount, PlainChunk, IsPart, EncryptChunk, SizeOf, PlainChunkSize;
      if index == cachedChunkIndex {
        return true;
      }
      WireSizeIsExact(parameters);
      SizesAreExact(parameters, index);
      var plainSize := PlainChunkSize(parameters, index);
      if plainSize.None? {
        return false;
      }
      SizeIsPositive(parameters, index);
      var plainOffset := Wrap(index * parameters.chunkSize);
      WrapIsExact(index * parameters.chunkSize);
      if plainOffset > MAX_INT64 {
        return false;
      }
      var chunk: Bytes := [];
      if plainSize.value > 0 {
        if source.None? || |source.value| != plainSize.value {
          return false;
        }
        chunk := source.value;
      }
      var encrypted := EncryptChunk(g, parameters, index, chunk);
      if encrypted.Err? {
        return false;
      }
      cachedChunkIndex, cachedWireChunk := index, encrypted.value;
      ok := true;
    }

    method ObserveRead(start: int, data: Bytes)
      requires Valid() && wireSize >= 0 && start == position && 0 < |data| <= wireSize - position
      requires IsPart(Sent(), start, data)
      modifies `hashed, `hashPosition, `completedHash
      ensures hashed == if hashValid then old(hashed) + data else old(hashed)
      ensures hashPosition == |hashed| && (hashValid ==> hashPosition == position + |data|)
      ensures IsPart(Sent(), 0, hashed)
      ensures completedHash == (if hashValid && hashPosition == wireSize then sha(hashed) else [])
    {
      hide WireByte, WireSize, ChunkCount, IsPart, CacheValid;
      if !hashValid || start != hashPosition {
        return;
      }
      PartGrows(Sent(), 0, hashed, data);
      hashed, hashPosition := hashed + data, hashPosition + |data|;
      if hashPosition == wireSize {
        completedHash := sha(hashed);
      }
    }

    // A completed hash is the hash of the whole wire object.
    lemma CompletedHashIsOfTheObject()
      requires Valid() && completedHash != []
      ensures ObjectValid(Sent()) && AllEncrypt(Sent()) && completedHash == sha(WireObject(Sent()))
    {
      hide WireByte, WireSize, ChunkCount;
      AddressedBytesAreAll(Sent(), hashed);
    }
  }

  // What a read returned is that slice of the wire object.
  lemma PartIsSlice(o: Object, start: nat, data: Bytes)
    requires ObjectValid(o) && AllEncrypt(o) && start + |data| <= WireSize(o.p).value && IsPart(o, start, data)
    ensures |WireObject(o)| == WireSize(o.p).value && data == WireObject(o)[start..start + |data|]
  {
    hide WireByte, WireSize, ChunkCount, Record;
    AddressedBytesAreTheSlice(o, start, data);
  }

  lemma EmptyPart(o: Object, start: nat)
    requires ObjectValid(o) && start <= MAX_UINT64
    ensures IsPart(o, start, [])
  {
  }

  lemma AllEncryptMeansEach(o: Object, index: UInt64)
    requires ObjectValid(o) && index < ChunkCount(o.p)
    ensures AllEncrypt(o) ==> Record(o, index).Ok?
  {
    hide Record, ChunkCount;
  }

  lemma WireIsNotEmpty(p: Parameters)
    requires WireSize(p).Some?
    ensures WireSize(p).value >= OVERHEAD
  {
    hide ChunkCount;
    WireSizeIsExact(p);
    CountIsExact(p);
  }
}
