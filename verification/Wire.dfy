// The portable chunk representation of remote media: 64-bit geometry, contexts and nonces, and
// the records whose concatenation is the wire object.
module Wire {
  import opened Basics
  import opened Encoding
  import opened Envelope

  const MAX_CHUNK_SIZE := 16 * 1024 * 1024
  const CONTEXT_SIZE := 64
  const OVERHEAD := CONTEXT_SIZE + TAG_SIZE
  const MASTER_KEY_SIZE := 32

  type UInt32 = i: int | 0 <= i <= MAX_UINT32

  datatype Parameters = Parameters(rootKey: Bytes, noncePrefix: Bytes, plainChecksum: Bytes, plainSize: UInt64, chunkSize: UInt32)

  // Arithmetic on quint64.
  function Wrap(n: int): UInt64 {
    n % 0x1_0000_0000_0000_0000
  }

  // ---- Geometry, as it is computed ----

  predicate IsValid(p: Parameters) {
    |p.rootKey| == MASTER_KEY_SIZE && |p.noncePrefix| == 4 && |p.plainChecksum| == 32 && 0 < p.chunkSize <= MAX_CHUNK_SIZE
  }

  function ChunkCount(p: Parameters): UInt64 {
    if !IsValid(p) then 0
    else if p.plainSize == 0 then 1
    else Wrap(1 + Wrap(p.plainSize - 1) / p.chunkSize)
  }

  function PlainChunkSize(p: Parameters, index: UInt64): Option<UInt32> {
    if !IsValid(p) || index >= ChunkCount(p) then None
    else if p.plainSize == 0 then Some(0)
    else
      var offset := Wrap(index * p.chunkSize);
      var left := Wrap(p.plainSize - offset);
      Some(Min(p.chunkSize, left))
  }

  function WireChunkSize(p: Parameters, index: UInt64): Option<UInt64> {
    match PlainChunkSize(p, index)
    case None => None
    case Some(size) => Some(Wrap(size + OVERHEAD))
  }

  function WireChunkOffset(p: Parameters, index: UInt64): Option<UInt64> {
    if !IsValid(p) || index >= ChunkCount(p) then None
    else
      var span := Wrap(p.chunkSize + OVERHEAD);
      if span == 0 || index > MAX_UINT64 / span then None else Some(Wrap(index * span))
  }

  function WireSize(p: Parameters): Option<UInt64> {
    if !IsValid(p) then None
    else
      var count := ChunkCount(p);
      if count > Wrap(MAX_UINT64 - p.plainSize) / OVERHEAD then None else Some(Wrap(p.plainSize + Wrap(count * OVERHEAD)))
  }

  function ChunkIndexForWireOffset(p: Parameters, wireOffset: UInt64): Option<UInt64> {
    match WireSize(p)
    case None => None
    case Some(total) =>
      if wireOffset >= total then None
      else
        var span := Wrap(p.chunkSize + OVERHEAD);
        if span == 0 then None
        else
          QuotientIsSmaller(wireOffset, span);
          var index := wireOffset / span;
          if index >= ChunkCount(p) then None else Some(index)
  }

  // ---- Geometry, in unbounded arithmetic ----

  function Chunks(plainSize: nat, chunkSize: nat): nat
    requires chunkSize > 0
  {
    if plainSize == 0 then 1 else 1 + (plainSize - 1) / chunkSize
  }

  // How much of a plaintext of this size is left for chunk `index`.
  function SizeOf(plainSize: nat, chunkSize: nat, index: nat): int {
    Min(chunkSize, plainSize - index * chunkSize)
  }

  function Stride(p: Parameters): nat {
    p.chunkSize + OVERHEAD
  }

  lemma WrapIsExact(n: int)
    requires 0 <= n <= MAX_UINT64
    ensures Wrap(n) == n
  {
  }

  lemma QuotientIsSmaller(n: nat, d: nat)
    requires d > 0
    ensures 0 <= n / d <= n
  {
    var q, r := n / d, n % d;
    assert n == q * d + r;
    Scale(1, d, q);
  }

  lemma DivisionBounds(w: nat, span: nat)
    requires span > 0
    ensures w / span * span <= w < w / span * span + span && 0 <= w / span <= w
  {
    QuotientIsSmaller(w, span);
  }

  lemma QuotientUnique(w: nat, span: nat, index: nat)
    requires span > 0 && index * span <= w < index * span + span
    ensures w / span == index
  {
    DivisionBounds(w, span);
    var q := w / span;
    if q < index {
      Scale(q + 1, index, span);
    } else if q > index {
      Scale(index + 1, q, span);
    }
  }

  lemma CountIsExact(p: Parameters)
    requires IsValid(p)
    ensures ChunkCount(p) == Chunks(p.plainSize, p.chunkSize) >= 1
    ensures p.plainSize == 0 ==> ChunkCount(p) == 1
    ensures p.plainSize > 0 ==> (ChunkCount(p) - 1) * p.chunkSize < p.plainSize <= (ChunkCount(p) - 1) * p.chunkSize + p.chunkSize
  {
    hide Wrap;
    if p.plainSize > 0 {
      DivisionBounds(p.plainSize - 1, p.chunkSize);
      WrapIsExact(p.plainSize - 1);
      WrapIsExact(1 + (p.plainSize - 1) / p.chunkSize);
    }
  }

  // Chunk i of `count` chunks of size c that hold `size` bytes.
  lemma ChunkBounds(i: nat, c: nat, size: nat, count: nat)
    requires c > 0 && i < count
    requires size == 0 ==> count == 1
    requires size > 0 ==> (count - 1) * c < size <= (count - 1) * c + c
    ensures 0 <= i * c <= size
    ensures i + 1 < count ==> size - i * c >= c
    ensures i + 1 == count ==> size - i * c <= c
  {
    Scale(0, i, c);
    Scale(i, count - 1, c);
    if i + 1 < count {
      Scale(i + 1, count - 1, c);
      assert (i + 1) * c == i * c + c;
    } else {
      assert i == count - 1;
    }
  }

  // Parameters are valid with a key of 32 bytes, a prefix of four, a checksum of 32 and chunks of up to 16
  // mebibytes. Only chunks of valid parameters have sizes and an offset; the offset is exact, and defined
  // exactly if it fits 64 bits.
  lemma OnlyChunksAreDefined(p: Parameters, index: UInt64)
    ensures IsValid(p)
      <==> |p.rootKey| == 32 && |p.noncePrefix| == 4 && |p.plainChecksum| == 32 && 1 <= p.chunkSize <= 16777216
    ensures !IsValid(p) || index >= ChunkCount(p) ==>
      PlainChunkSize(p, index) == None && WireChunkSize(p, index) == None && WireChunkOffset(p, index) == None
    ensures IsValid(p) && index < ChunkCount(p) ==>
      WireChunkOffset(p, index) == if index * (p.chunkSize + 80) <= MAX_UINT64 then Some(index * (p.chunkSize + 80)) else None
  {
    hide ChunkCount, Wrap;
    if IsValid(p) {
      var span := p.chunkSize + 80;
      WrapIsExact(span);
      DivisionBounds(MAX_UINT64, span);
      if index > MAX_UINT64 / span {
        Scale(MAX_UINT64 / span + 1, index, span);
      } else {
        Scale(index, MAX_UINT64 / span, span);
        Scale(0, index, span);
        WrapIsExact(index * span);
      }
    }
  }

  // No product or difference leaves 64 bits: a chunk has the size exact arithmetic gives.
  lemma SizesAreExact(p: Parameters, index: UInt64)
    requires IsValid(p)
    ensures PlainChunkSize(p, index).Some? <==> index < ChunkCount(p)
    ensures index < ChunkCount(p) ==>
      && 0 <= index * p.chunkSize <= p.plainSize
      && PlainChunkSize(p, index) == Some(SizeOf(p.plainSize, p.chunkSize, index))
      && WireChunkSize(p, index) == Some(SizeOf(p.plainSize, p.chunkSize, index) + OVERHEAD)
    ensures index + 1 < ChunkCount(p) ==> SizeOf(p.plainSize, p.chunkSize, index) == p.chunkSize
    ensures index + 1 == ChunkCount(p) ==> index * p.chunkSize + SizeOf(p.plainSize, p.chunkSize, index) == p.plainSize
  {
    hide Wrap, ChunkCount;
    CountIsExact(p);
    if index < ChunkCount(p) {
      ChunkBounds(index, p.chunkSize, p.plainSize, ChunkCount(p));
      var product := index * p.chunkSize;
      WrapIsExact(product);
      WrapIsExact(p.plainSize - product);
      WrapIsExact(SizeOf(p.plainSize, p.chunkSize, index) + OVERHEAD);
      if p.plainSize == 0 {
        assert index == 0;
      }
    }
  }

  // The wire size is defined exactly if plaintext and overhead together fit 64 bits, and then
  // it is their sum.
  lemma WireSizeIsExact(p: Parameters)
    ensures WireSize(p).Some? <==> IsValid(p) && p.plainSize + ChunkCount(p) * OVERHEAD <= MAX_UINT64
    ensures WireSize(p).Some? ==> WireSize(p).value == p.plainSize + ChunkCount(p) * OVERHEAD
  {
    hide Wrap, ChunkCount;
    if IsValid(p) {
      WrapIsExact(MAX_UINT64 - p.plainSize);
      var overhead := ChunkCount(p) * OVERHEAD;
      if p.plainSize + overhead <= MAX_UINT64 {
        WrapIsExact(overhead);
        WrapIsExact(p.plainSize + overhead);
      }
    }
  }

  lemma Distribute(i: int, c: int)
    ensures i * (c + OVERHEAD) == i * c + i * OVERHEAD
    ensures (i + 1) * (c + OVERHEAD) == i * (c + OVERHEAD) + c + OVERHEAD
  {
  }

  // While the wire size is defined, every offset is, and the records tile the wire object:
  // the first starts at 0, each starts where its predecessor ends, the last ends at its size.
  lemma RecordsTile(p: Parameters, index: UInt64)
    requires WireSize(p).Some? && index < ChunkCount(p)
    ensures WireChunkOffset(p, index) == Some(index * Stride(p))
    ensures index == 0 ==> index * Stride(p) == 0
    ensures index + 1 < ChunkCount(p) ==>
      (index + 1) * Stride(p) == index * Stride(p) + SizeOf(p.plainSize, p.chunkSize, index) + OVERHEAD
    ensures index + 1 == ChunkCount(p) ==>
      WireSize(p).value == index * Stride(p) + SizeOf(p.plainSize, p.chunkSize, index) + OVERHEAD
  {
    hide Wrap, ChunkCount, WireSize, SizeOf, PlainChunkSize, WireChunkSize;
    WireSizeIsExact(p);
    SizesAreExact(p, index);
    Distribute(index, p.chunkSize);
    WrapIsExact(p.chunkSize + OVERHEAD);
    ProductFits(index, Stride(p));
    WrapIsExact(index * Stride(p));
  }

  lemma ProductFits(i: nat, span: nat)
    requires span > 0 && i * span <= MAX_UINT64
    ensures i <= MAX_UINT64 / span
  {
    DivisionBounds(MAX_UINT64, span);
    if i > MAX_UINT64 / span {
      Scale(MAX_UINT64 / span + 1, i, span);
    }
  }

  // The index computed for an offset is the one record that covers it. In particular the
  // computed index is never out of range.
  lemma IndexIsTheCoveringRecord(p: Parameters, wireOffset: UInt64, index: UInt64)
    requires WireSize(p).Some?
    ensures ChunkIndexForWireOffset(p, wireOffset).Some? <==> wireOffset < WireSize(p).value
    ensures ChunkIndexForWireOffset(p, wireOffset) == Some(index)
            <==> index < ChunkCount(p) && Covers(p, index, wireOffset)
  {
    hide ChunkCount, WireSize, SizeOf, ChunkIndexForWireOffset, Covers;
    WireSizeIsExact(p);
    if wireOffset < WireSize(p).value {
      IndexCovers(p, wireOffset);
    } else {
      BehindTheEnd(p, wireOffset);
    }
    if index < ChunkCount(p) && Covers(p, index, wireOffset) {
      CoveringIndex(p, wireOffset, index);
    }
  }

  lemma BehindTheEnd(p: Parameters, wireOffset: UInt64)
    requires WireSize(p).Some? && wireOffset >= WireSize(p).value
    ensures ChunkIndexForWireOffset(p, wireOffset) == None
  {
    hide WireSize;
  }

  lemma IndexCovers(p: Parameters, wireOffset: UInt64)
    requires WireSize(p).Some? && wireOffset < WireSize(p).value
    ensures var index := wireOffset / Stride(p);
      ChunkIndexForWireOffset(p, wireOffset) == Some(index) && index < ChunkCount(p) && Covers(p, index, wireOffset)
  {
    hide Wrap, ChunkCount, WireSize, SizeOf;
    WireSizeIsExact(p);
    CountIsExact(p);
    WrapIsExact(p.chunkSize + OVERHEAD);
    DivisionBounds(wireOffset, Stride(p));
    var index, last := wireOffset / Stride(p), ChunkCount(p) - 1;
    RecordsTile(p, last);
    SizesAreExact(p, last);
    SizeIsBounded(p.plainSize, p.chunkSize, last);
    if index > last {
      Scale(last + 1, index, Stride(p));
      Distribute(last, p.chunkSize);
    }
    RecordsTile(p, index);
    SizesAreExact(p, index);
  }

  lemma SizeIsBounded(plainSize: nat, chunkSize: nat, index: nat)
    ensures SizeOf(plainSize, chunkSize, index) <= chunkSize
  {
  }

  lemma CoveringIndex(p: Parameters, wireOffset: UInt64, index: UInt64)
    requires WireSize(p).Some? && index < ChunkCount(p) && Covers(p, index, wireOffset)
    ensures wireOffset < WireSize(p).value && wireOffset / Stride(p) == index
  {
    hide ChunkCount, WireSize, SizeOf;
    RecordEnds(p, index);
    SizeIsBounded(p.plainSize, p.chunkSize, index);
    QuotientUnique(wireOffset, Stride(p), index);
  }

  predicate Covers(p: Parameters, index: nat, wireOffset: nat) {
    index * Stride(p) <= wireOffset < index * Stride(p) + SizeOf(p.plainSize, p.chunkSize, index) + OVERHEAD
  }

  lemma RecordEnds(p: Parameters, index: UInt64)
    requires WireSize(p).Some? && index < ChunkCount(p)
    ensures index * Stride(p) + SizeOf(p.plainSize, p.chunkSize, index) + OVERHEAD <= WireSize(p).value
  {
    hide Wrap, ChunkCount, WireSize, SizeOf, PlainChunkSize, WireChunkSize, WireChunkOffset;
    WireSizeIsExact(p);
    CountIsExact(p);
    RecordsTile(p, index);
    if index + 1 < ChunkCount(p) {
      RecordsTile(p, ChunkCount(p) - 1);
      SizesAreExact(p, ChunkCount(p) - 1);
      SizeIsPositive(p, ChunkCount(p) - 1);
      Scale(index + 1, ChunkCount(p) - 1, Stride(p));
    }
  }

  lemma SizeIsPositive(p: Parameters, index: UInt64)
    requires IsValid(p) && index < ChunkCount(p)
    ensures 0 <= SizeOf(p.plainSize, p.chunkSize, index)
  {
    hide ChunkCount;
    SizesAreExact(p, index);
  }

  // The sizes of the first n records.
  function SizesUpTo(p: Parameters, n: nat): nat
    requires IsValid(p) && n <= ChunkCount(p)
  {
    if n == 0 then 0
    else
      SizesAreExact(p, n - 1);
      SizesUpTo(p, n - 1) + WireChunkSize(p, n - 1).value
  }

  lemma {:induction false} SizesSumUp(p: Parameters, n: nat)
    requires WireSize(p).Some? && n <= ChunkCount(p)
    ensures n < ChunkCount(p) ==> SizesUpTo(p, n) == n * Stride(p)
    ensures n == ChunkCount(p) ==> SizesUpTo(p, n) == WireSize(p).value
  {
    hide Wrap, ChunkCount, WireSize, SizeOf, PlainChunkSize, WireChunkSize, WireChunkOffset;
    WireSizeIsExact(p);
    CountIsExact(p);
    if n > 0 {
      SizesSumUp(p, n - 1);
      RecordsTile(p, n - 1);
      SizesAreExact(p, n - 1);
    }
  }
}
