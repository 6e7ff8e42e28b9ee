// The chunked container of encrypted media (format AKMC): writer, reader, and the
// proof that reading a range gives that slice of what was written.
module ManagedBlob {
  import opened Basics
  import opened Encoding
  import opened Envelope

  const CHUNK_MAGIC := 0x414b4d43
  const CHUNK_FORMAT := 1
  const CHUNK_SIZE: nat := 1024 * 1024
  const MAX_ENVELOPE_OVERHEAD := 128 * 1024
  const LOCAL_MEDIA: Byte := 7

  datatype Header = Header(chunkSize: nat, plainSize: nat, chunkCount: nat, fullEnvelopeSize: nat)

  // ---- Geometry ----

  function ChunkCount(size: nat): nat {
    if size == 0 then 0 else (size + CHUNK_SIZE - 1) / CHUNK_SIZE
  }

  function ExpectedChunkSize(h: Header, index: nat): int {
    if index >= h.chunkCount then -1
    else Min(h.chunkSize, h.plainSize - index * h.chunkSize)
  }

  // The plaintext of chunk `index`.
  function ChunkOf(plain: Bytes, index: nat): Bytes
    requires index < ChunkCount(|plain|)
  {
    plain[index * CHUNK_SIZE..Min((index + 1) * CHUNK_SIZE, |plain|)]
  }

  lemma ChunkSizes(h: Header, size: nat, index: nat)
    requires h.chunkSize == CHUNK_SIZE && h.plainSize == size && h.chunkCount == ChunkCount(size)
    requires index < h.chunkCount
    ensures index * CHUNK_SIZE < size
    ensures 0 < ExpectedChunkSize(h, index) <= CHUNK_SIZE
    ensures ExpectedChunkSize(h, index) == Min((index + 1) * CHUNK_SIZE, size) - index * CHUNK_SIZE
    ensures index + 1 < h.chunkCount ==> ExpectedChunkSize(h, index) == CHUNK_SIZE
    ensures index + 1 == h.chunkCount ==> (index + 1) * CHUNK_SIZE >= size
  {
  }

  // ---- Contexts ----

  function HeaderContext(blobId: Bytes): Context {
    Context(LOCAL_MEDIA, "anykeep-local-media-chunks", Hex(blobId), CHUNK_FORMAT, "header")
  }

  function ChunkContext(blobId: Bytes, h: Header, index: nat): Context
    requires index < h.chunkCount
  {
    Context(LOCAL_MEDIA, "anykeep-local-media-chunks", Hex(blobId) + ":" + HexFixed(index, 16), CHUNK_FORMAT,
            "attachment-chunk:" + Decimal(h.plainSize) + ":" + Decimal(h.chunkSize) + ":" + Decimal(h.chunkCount)
            + ":" + Decimal(Max(0, ExpectedChunkSize(h, index))))
  }

  function Descriptor(h: Header): Bytes {
    Be(CHUNK_MAGIC, 4) + Be(CHUNK_FORMAT, 2) + Be(h.chunkSize, 4) + Be(h.plainSize, 8) + Be(h.chunkCount, 8)
      + Be(h.fullEnvelopeSize, 4)
  }

  // What a header that fits its fields looks like.
  predicate Fits(h: Header) {
    && h.chunkSize == CHUNK_SIZE && h.plainSize <= MAX_INT64 && h.chunkCount == ChunkCount(h.plainSize)
    && h.fullEnvelopeSize <= MAX_UINT32
  }

  lemma DecimalIsPlain(n: nat)
    ensures Plain(Decimal(n)) && (n <= MAX_UINT64 ==> |Decimal(n)| <= 20)
  {
    var s := Decimal(n);
    assert forall i :: 0 <= i < |s| ==> IsDigit(s[i]);
    if n <= MAX_UINT64 {
      assert Pow10(5) == 10_0000;
      assert Pow10(10) == 100_0000_0000 by { assert Pow10(7) == 1000_0000; }
      assert Pow10(15) == 1000_0000_0000_0000 by { assert Pow10(12) == 100_0000_0000 * 100; }
      assert Pow10(20) == 1_0000_0000_0000_0000_0000 by { assert Pow10(17) == 1000_0000_0000_0000 * 100; }
      DecimalLengthBound(n, 20);
    }
  }

  lemma ContextsRepresentable(blobId: Bytes, h: Header, index: nat)
    requires |blobId| == 32 && Fits(h)
    ensures Representable(HeaderContext(blobId)) && |AssociatedData(HeaderContext(blobId))| < 300
    ensures index < h.chunkCount ==>
      Representable(ChunkContext(blobId, h, index)) && |AssociatedData(ChunkContext(blobId, h, index))| < 600
  {
    hide AssociatedData, Decimal, Hex, HexFixed, Plain, ChunkContext, Representable;
    HeaderContextFits(blobId);
    if index < h.chunkCount {
      ChunkSizes(h, h.plainSize, index);
      ChunkContextFits(blobId, h, index);
    }
  }

  lemma HeaderContextFits(blobId: Bytes)
    requires |blobId| == 32
    ensures Representable(HeaderContext(blobId)) && |AssociatedData(HeaderContext(blobId))| < 300
  {
    hide AssociatedData, Hex;
  }

  lemma ChunkContextFits(blobId: Bytes, h: Header, index: nat)
    requires |blobId| == 32 && Fits(h) && index < h.chunkCount && ExpectedChunkSize(h, index) <= CHUNK_SIZE
    ensures Representable(ChunkContext(blobId, h, index)) && |AssociatedData(ChunkContext(blobId, h, index))| < 600
  {
    hide AssociatedData, Decimal, Hex, HexFixed, ExpectedChunkSize, ChunkCount;
    CountIsSmall(h.plainSize);
    DecimalIsPlain(h.plainSize);
    DecimalIsPlain(h.chunkSize);
    DecimalIsPlain(h.chunkCount);
    DecimalIsPlain(Max(0, ExpectedChunkSize(h, index)));
    KindFits(Decimal(h.plainSize), Decimal(h.chunkSize), Decimal(h.chunkCount), Decimal(Max(0, ExpectedChunkSize(h, index))));
    ItemIdFits(Hex(blobId), HexFixed(index, 16));
  }

  lemma CountIsSmall(size: nat)
    requires size <= MAX_INT64
    ensures ChunkCount(size) <= MAX_UINT64
  {
  }

  lemma KindFits(a: string, b: string, c: string, d: string)
    requires Plain(a) && Plain(b) && Plain(c) && Plain(d) && |a| <= 20 && |b| <= 20 && |c| <= 20 && |d| <= 20
    ensures var kind := "attachment-chunk:" + a + ":" + b + ":" + c + ":" + d; Plain(kind) && |kind| <= 100
  {
    var head: string := "attachment-chunk:";
    assert Plain(head);
    PlainJoins(head, a);
    PlainJoins(head + a, ":");
    PlainJoins(head + a + ":", b);
    PlainJoins(head + a + ":" + b, ":");
    PlainJoins(head + a + ":" + b + ":", c);
    PlainJoins(head + a + ":" + b + ":" + c, ":");
    PlainJoins(head + a + ":" + b + ":" + c + ":", d);
  }

  lemma ItemIdFits(a: string, b: string)
    requires Plain(a) && Plain(b)
    ensures Plain(a + ":" + b)
  {
    PlainJoins(a, ":");
    PlainJoins(a + ":", b);
  }

  // Equal sizes and a padded index: full chunks have contexts of one length, and the
  // last chunk's is no longer.
  lemma ContextLengths(blobId: Bytes, h: Header, i: nat, j: nat)
    requires Fits(h) && i < h.chunkCount && j < h.chunkCount
    requires ExpectedChunkSize(h, j) <= ExpectedChunkSize(h, i)
    ensures |AssociatedData(ChunkContext(blobId, h, j))| <= |AssociatedData(ChunkContext(blobId, h, i))|
    ensures ExpectedChunkSize(h, j) == ExpectedChunkSize(h, i) ==>
      |AssociatedData(ChunkContext(blobId, h, j))| == |AssociatedData(ChunkContext(blobId, h, i))|
  {
    hide AssociatedData, Decimal, Hex, HexFixed;
    ChunkSizes(h, h.plainSize, i);
    ChunkSizes(h, h.plainSize, j);
    DecimalLengthMonotone(Max(0, ExpectedChunkSize(h, j)), Max(0, ExpectedChunkSize(h, i)));
  }

  // Different chunks have different contexts, within a blob and between blobs of any sizes, so no
  // record can stand in for another.
  lemma ChunkContextsDiffer(a: Bytes, h: Header, i: nat, b: Bytes, k: Header, j: nat)
    requires |a| == 32 && |b| == 32 && Fits(h) && Fits(k) && i < h.chunkCount && j < k.chunkCount
    requires ChunkContext(a, h, i) == ChunkContext(b, k, j)
    ensures a == b && i == j && h.plainSize == k.plainSize
  {
    hide Decimal, Hex, HexFixed, ExpectedChunkSize, ChunkContext, KindTail, ChunkCount;
    ContextParts(a, h, i);
    ContextParts(b, k, j);
    KindsDiffer(h.plainSize, KindTail(h, i), k.plainSize, KindTail(k, j));
    ItemIdsDiffer(a, i, b, j);
  }

  lemma ContextParts(blobId: Bytes, h: Header, index: nat)
    requires Fits(h) && index < h.chunkCount
    ensures var c := ChunkContext(blobId, h, index);
      && c.itemId == Hex(blobId) + ":" + HexFixed(index, 16)
      && c.kind == "attachment-chunk:" + (Decimal(h.plainSize) + KindTail(h, index))
    ensures KindTail(h, index) != [] && KindTail(h, index)[0] == ':' && index <= MAX_UINT64
  {
    hide Decimal, Hex, HexFixed, ExpectedChunkSize;
    ChunkSizes(h, h.plainSize, index);
  }

  lemma ItemIdsDiffer(a: Bytes, i: nat, b: Bytes, j: nat)
    requires |a| == 32 && |b| == 32 && i <= MAX_UINT64 && j <= MAX_UINT64
    ensures Hex(a) + ":" + HexFixed(i, 16) == Hex(b) + ":" + HexFixed(j, 16) ==> a == b && i == j
  {
    hide Hex, HexFixed;
    var x, y := Hex(a) + ":" + HexFixed(i, 16), Hex(b) + ":" + HexFixed(j, 16);
    assert Hex(a) == x[..64] && Hex(b) == y[..64];
    assert HexFixed(i, 16) == x[65..] && HexFixed(j, 16) == y[65..];
    assert Pow16(8) == 0x1_0000_0000 by { assert Pow16(4) == 0x1_0000; }
    assert Pow16(16) == 0x1_0000_0000_0000_0000 by { assert Pow16(12) == 0x1_0000_0000_0000; }
    if x == y {
      HexInjective(a, b);
      HexFixedInjective(i, j, 16);
    }
  }

  // What follows the plaintext size in the kind of a chunk.
  function KindTail(h: Header, index: nat): string
    requires index < h.chunkCount
  {
    ":" + Decimal(h.chunkSize) + ":" + Decimal(h.chunkCount) + ":" + Decimal(Max(0, ExpectedChunkSize(h, index)))
  }

  lemma KindsDiffer(m: nat, x: string, n: nat, y: string)
    requires x != [] && y != [] && x[0] == ':' && y[0] == ':'
    ensures "attachment-chunk:" + (Decimal(m) + x) == "attachment-chunk:" + (Decimal(n) + y) ==> m == n
  {
    hide Decimal;
    var p := "attachment-chunk:";
    assert (p + (Decimal(m) + x))[|p|..] == Decimal(m) + x && (p + (Decimal(n) + y))[|p|..] == Decimal(n) + y;
    if Decimal(m) + x == Decimal(n) + y {
      DecimalPrefixUnique(m, n, x, y);
    }
  }

  // ---- The container ----

  function Records(envelopes: seq<Bytes>): Bytes {
    if envelopes == [] then [] else Put(envelopes[0]) + Records(envelopes[1..])
  }

  lemma {:induction false} RecordsAppend(a: seq<Bytes>, b: seq<Bytes>)
    ensures Records(a + b) == Records(a) + Records(b)
  {
    if a == [] {
      assert a + b == b;
    } else {
      assert (a + b)[1..] == a[1..] + b;
      RecordsAppend(a[1..], b);
    }
  }

  function Layout(h: Header, headerEnvelope: Bytes, envelopes: seq<Bytes>): Bytes {
    Descriptor(h) + Put(headerEnvelope) + Records(envelopes)
  }

  // Every record but the last has the same length, so record i starts at a fixed stride.
  predicate Framed(h: Header, envelopes: seq<Bytes>) {
    && |envelopes| == h.chunkCount
    && (forall i :: 0 <= i < |envelopes| ==> 0 < |envelopes[i]| <= h.fullEnvelopeSize)
    && (forall i :: 0 <= i < |envelopes| - 1 ==> |envelopes[i]| == h.fullEnvelopeSize)
  }

  // The container holds `plain` for `blobId`.
  ghost predicate Sealed(g: Gcm, blobId: Bytes, plain: Bytes, h: Header, headerEnvelope: Bytes, envelopes: seq<Bytes>) {
    && Fits(h) && h.plainSize == |plain|
    && Framed(h, envelopes)
    && (h.chunkCount == 0 ==> h.fullEnvelopeSize == 0)
    && (h.chunkCount > 0 ==> |envelopes[0]| == h.fullEnvelopeSize)
    && h.fullEnvelopeSize <= CHUNK_SIZE + MAX_ENVELOPE_OVERHEAD
    && 0 < |headerEnvelope| <= MAX_ENVELOPE_OVERHEAD
    && Open(g, headerEnvelope, HeaderContext(blobId)) == Some(Descriptor(h))
    && forall i :: 0 <= i < h.chunkCount ==> Holds(g, blobId, plain, h, envelopes, i)
  }

  ghost predicate Holds(g: Gcm, blobId: Bytes, plain: Bytes, h: Header, envelopes: seq<Bytes>, i: nat)
    requires i < h.chunkCount && i < |envelopes| && h.chunkCount == ChunkCount(|plain|)
  {
    Open(g, envelopes[i], ChunkContext(blobId, h, i)) == Some(ChunkOf(plain, i))
    && (ExpectedChunkSize(h, i) == CHUNK_SIZE ==> |envelopes[i]| == h.fullEnvelopeSize)
  }

  // The bytes `count` records of full size occupy, each with its length field.
  function Span(count: nat, full: nat): nat {
    count * (4 + full)
  }

  lemma SpanStep(count: nat, full: nat)
    ensures Span(0, full) == 0
    ensures count > 0 ==> Span(count, full) == 4 + full + Span(count - 1, full)
  {
  }

  lemma DropBoth(head: Bytes, rest: Bytes, n: nat)
    requires n <= |rest|
    ensures (head + rest)[|head| + n..] == rest[n..]
  {
  }

  lemma {:induction false} RecordAt(envelopes: seq<Bytes>, full: nat, index: nat)
    requires index < |envelopes| && forall i :: 0 <= i < |envelopes| - 1 ==> |envelopes[i]| == full
    ensures Span(index, full) <= |Records(envelopes)|
    ensures Records(envelopes)[Span(index, full)..] == Records(envelopes[index..])
  {
    hide Be, Span;
    SpanStep(index, full);
    if index > 0 {
      var rest := envelopes[1..];
      RecordAt(rest, full, index - 1);
      assert rest[index - 1..] == envelopes[index..];
      var head := Put(envelopes[0]);
      assert Records(envelopes) == head + Records(rest) && |head| == 4 + full;
      DropBoth(head, Records(rest), Span(index - 1, full));
    } else {
      assert envelopes[0..] == envelopes;
    }
  }

  // ---- Reading ----

  function ReadEnvelope(s: Bytes, maxSize: nat): Option<(Bytes, Bytes)> {
    match TakeNumber(s, 4)
    case None => None
    case Some((size, rest)) =>
      if size == 0 || size > maxSize || size > MAX_INT32 || |rest| < size then None
      else Some((rest[..size], rest[size..]))
  }

  lemma ReadEnvelopeOfPut(b: Bytes, rest: Bytes, maxSize: nat)
    requires 0 < |b| <= maxSize && |b| <= MAX_INT32
    ensures ReadEnvelope(Put(b) + rest, maxSize) == Some((b, rest))
  {
    hide Be, TakeNumber;
    Powers();
    assert Put(b) + rest == Be(|b|, 4) + (b + rest);
    TakeNumberOfBe(|b|, 4, b + rest);
  }

  // The six fields in front of the header envelope, with the magic and version checked.
  function TakeDescriptor(file: Bytes): Option<(Header, Bytes)> {
    if |file| < 30 || FromBe(file[..4]) != CHUNK_MAGIC || FromBe(file[4..6]) != CHUNK_FORMAT then None
    else Some((Header(FromBe(file[6..10]), FromBe(file[10..18]), FromBe(file[18..26]), FromBe(file[26..30])), file[30..]))
  }

  lemma TakeDescriptorOf(h: Header, rest: Bytes)
    requires Fits(h)
    ensures TakeDescriptor(Descriptor(h) + rest) == Some((h, rest))
  {
    hide Be, FromBe;
    Powers();
    var file := Descriptor(h) + rest;
    FromBeOfBe(CHUNK_MAGIC, 4);
    FromBeOfBe(CHUNK_FORMAT, 2);
    FromBeOfBe(h.chunkSize, 4);
    FromBeOfBe(h.plainSize, 8);
    FromBeOfBe(h.chunkCount, 8);
    FromBeOfBe(h.fullEnvelopeSize, 4);
    assert file[..4] == Be(CHUNK_MAGIC, 4) && file[4..6] == Be(CHUNK_FORMAT, 2);
    assert file[6..10] == Be(h.chunkSize, 4) && file[10..18] == Be(h.plainSize, 8);
    assert file[18..26] == Be(h.chunkCount, 8) && file[26..30] == Be(h.fullEnvelopeSize, 4);
    assert file[30..] == rest;
  }

  predicate GeometryAccepted(h: Header) {
    && h.chunkSize == CHUNK_SIZE && h.plainSize <= MAX_INT64
    && h.chunkCount == ChunkCount(h.plainSize)
    && (h.chunkCount == 0 ==> h.fullEnvelopeSize == 0)
    && (h.chunkCount > 0 ==> 0 < h.fullEnvelopeSize <= h.chunkSize + MAX_ENVELOPE_OVERHEAD)
  }

  // The part of the file from `offset` on; a seek past the end leaves nothing to read.
  function From(file: Bytes, offset: nat): Bytes {
    if offset <= |file| then file[offset..] else []
  }

  // The guard against an offset outside 64 bits.
  predicate Overflows(dataOffset: nat, count: nat, full: nat) {
    count > (MAX_INT64 - dataOffset) / (4 + full)
  }

  lemma NoOverflow(dataOffset: nat, count: nat, full: nat)
    requires dataOffset + Span(count, full) <= MAX_INT64
    ensures !Overflows(dataOffset, count, full)
  {
    if Overflows(dataOffset, count, full) {
      var q := (MAX_INT64 - dataOffset) / (4 + full);
      Scale(q + 1, count, 4 + full);
    }
  }

  // The records must fill the file exactly.
  predicate TailAccepted(h: Header, file: Bytes, dataOffset: nat) {
    if h.chunkCount == 0 then |file| == dataOffset
    else if Overflows(dataOffset, h.chunkCount - 1, h.fullEnvelopeSize) then false
    else
      var lastOffset := dataOffset + Span(h.chunkCount - 1, h.fullEnvelopeSize);
      match TakeNumber(From(file, lastOffset), 4)
      case None => false
      case Some((size, _)) =>
        0 < size <= h.fullEnvelopeSize && lastOffset <= MAX_INT64 - 4 - size && lastOffset + 4 + size == |file|
  }

  // The header and where the records start.
  datatype Container = Container(header: Header, dataOffset: nat)

  function ReadHeader(g: Gcm, blobId: Bytes, file: Bytes): Result<Container> {
    hide TakeDescriptor, ReadEnvelope, GeometryAccepted, TailAccepted, Open, HeaderContext, Descriptor;
    match TakeDescriptor(file)
    case None => Err("Invalid chunked media header")
    case Some((h, rest)) =>
      match ReadEnvelope(rest, MAX_ENVELOPE_OVERHEAD)
      case None => Err("Invalid chunked media header")
      case Some((envelope, records)) =>
        var dataOffset := Max(0, |file| - |records|);
        if !GeometryAccepted(h) then Err("Invalid chunked media geometry")
        else if Open(g, envelope, HeaderContext(blobId)) != Some(Descriptor(h)) then
          Err("Chunked media header authentication failed")
        else if !TailAccepted(h, file, dataOffset) then Err("Invalid chunked media container length")
        else Ok(Container(h, dataOffset))
  }

  function ReadChunk(g: Gcm, blobId: Bytes, file: Bytes, h: Header, dataOffset: nat, index: nat): Result<Bytes> {
    if index >= h.chunkCount then Err("Media chunk is out of range")
    else if Overflows(dataOffset, index, h.fullEnvelopeSize) then Err("Media chunk offset overflow")
    else
      match ReadEnvelope(From(file, dataOffset + Span(index, h.fullEnvelopeSize)), h.fullEnvelopeSize)
      case None => Err("Invalid encrypted media chunk")
      case Some((envelope, _)) =>
        if (index + 1 < h.chunkCount || ExpectedChunkSize(h, index) == h.chunkSize) && |envelope| != h.fullEnvelopeSize then
          Err("Invalid encrypted media chunk size")
        else
          match Open(g, envelope, ChunkContext(blobId, h, index))
          case None => Err("Media chunk authentication failed")
          case Some(chunk) =>
            if |chunk| != ExpectedChunkSize(h, index) then Err("Invalid decrypted media chunk size") else Ok(chunk)
  }

  lemma ChunkHasExpectedSize(g: Gcm, blobId: Bytes, file: Bytes, h: Header, dataOffset: nat, index: nat)
    requires ReadChunk(g, blobId, file, h, dataOffset, index).Ok?
    ensures index < h.chunkCount
    ensures |ReadChunk(g, blobId, file, h, dataOffset, index).value| == ExpectedChunkSize(h, index)
  {
    hide ExpectedChunkSize, ReadEnvelope, Open, ChunkContext, Overflows, Span, From;
  }

  // The bytes of `remaining` positions from `cursor` on, chunk by chunk.
  function Collect(g: Gcm, blobId: Bytes, file: Bytes, h: Header, dataOffset: nat, cursor: nat, remaining: nat)
    : Result<Bytes>
    requires h.chunkSize == CHUNK_SIZE
    decreases remaining
  {
    if remaining == 0 then Ok([])
    else
      match ReadChunk(g, blobId, file, h, dataOffset, cursor / CHUNK_SIZE)
      case Err(e) => Err(e)
      case Ok(chunk) =>
        var start := cursor % CHUNK_SIZE;
        if |chunk| <= start then Err("Invalid decrypted media range")
        else
          var count := Min(remaining, |chunk| - start);
          match Collect(g, blobId, file, h, dataOffset, cursor + count, remaining - count)
          case Err(e) => Err(e)
          case Ok(rest) => Ok(chunk[start..start + count] + rest)
  }

  datatype Range = Range(value: Result<Bytes>, totalSize: int)

  function ReadRange(g: Gcm, blobId: Bytes, file: Bytes, offset: int, maxSize: int): Range {
    if blobId == [] || offset < 0 || maxSize < 0 then Range(Err("Invalid managed media range"), -1)
    else
      match ReadHeader(g, blobId, file)
      case Err(e) => Range(Err(e), -1)
      case Ok(Container(h, dataOffset)) =>
        if offset > h.plainSize then Range(Err("Managed media range is out of bounds"), h.plainSize)
        else if h.chunkSize != CHUNK_SIZE then Range(Err("Unsupported chunked media geometry"), -1)
        else Range(Collect(g, blobId, file, h, dataOffset, offset, Min(maxSize, h.plainSize - offset)), h.plainSize)
  }

  // LocalMediaStore::readManagedRange on a chunked file.
  method ReadManagedRange(g: Gcm, blobId: Bytes, file: Bytes, offset: int, maxSize: int) returns (r: Range)
    ensures r == ReadRange(g, blobId, file, offset, maxSize)
  {
    hide ReadHeader, ReadChunk, GeometryAccepted, Prepend;
    if blobId == [] || offset < 0 || maxSize < 0 {
      return Range(Err("Invalid managed media range"), -1);
    }
    var header := ReadHeader(g, blobId, file);
    if header.Err? {
      return Range(Err(header.error), -1);
    }
    var Container(h, dataOffset) := header.value;
    HeaderAccepted(g, blobId, file);
    if offset > h.plainSize {
      return Range(Err("Managed media range is out of bounds"), h.plainSize);
    }
    var cursor, remaining := offset, Min(maxSize, h.plainSize - offset);
    var result: Bytes := [];
    PrependNothing(Collect(g, blobId, file, h, dataOffset, cursor, remaining));
    ghost var whole := Collect(g, blobId, file, h, dataOffset, cursor, remaining);
    while remaining > 0
      invariant 0 <= cursor && 0 <= remaining
      invariant whole == Prepend(result, Collect(g, blobId, file, h, dataOffset, cursor, remaining))
      decreases remaining
    {
      PositionInChunk(h, cursor);
      var chunkIndex := cursor / h.chunkSize;
      var chunk := ReadChunk(g, blobId, file, h, dataOffset, chunkIndex);
      if chunk.Err? {
        PrependError(result, chunk.error);
        return Range(Err(chunk.error), h.plainSize);
      }
      var chunkOffset := cursor - chunkIndex * h.chunkSize;
      var copySize := Min(remaining, |chunk.value| - chunkOffset);
      if copySize <= 0 {
        PrependError(result, "Invalid decrypted media range");
        return Range(Err("Invalid decrypted media range"), h.plainSize);
      }
      ghost var rest := Collect(g, blobId, file, h, dataOffset, cursor + copySize, remaining - copySize);
      CollectStep(g, blobId, file, h, dataOffset, cursor, remaining, chunk.value);
      PrependAppend(result, chunk.value[chunkOffset..chunkOffset + copySize], rest);
      result := result + chunk.value[chunkOffset..chunkOffset + copySize];
      cursor, remaining := cursor + copySize, remaining - copySize;
    }
    PrependValue(result);
    r := Range(Ok(result), h.plainSize);
  }

  lemma PositionInChunk(h: Header, cursor: nat)
    requires h.chunkSize == CHUNK_SIZE
    ensures cursor / h.chunkSize == cursor / CHUNK_SIZE
    ensures cursor - cursor / h.chunkSize * h.chunkSize == cursor % CHUNK_SIZE
  {
  }

  lemma CollectStep(g: Gcm, blobId: Bytes, file: Bytes, h: Header, dataOffset: nat, cursor: nat, remaining: nat,
                    chunk: Bytes)
    requires h.chunkSize == CHUNK_SIZE && remaining > 0
    requires ReadChunk(g, blobId, file, h, dataOffset, cursor / CHUNK_SIZE) == Ok(chunk) && cursor % CHUNK_SIZE < |chunk|
    ensures var start := cursor % CHUNK_SIZE;
      var count := Min(remaining, |chunk| - start);
      Collect(g, blobId, file, h, dataOffset, cursor, remaining)
        == Prepend(chunk[start..start + count], Collect(g, blobId, file, h, dataOffset, cursor + count, remaining - count))
  {
    hide ReadChunk;
  }

  function Prepend(front: Bytes, rest: Result<Bytes>): Result<Bytes> {
    if rest.Ok? then Ok(front + rest.value) else rest
  }

  lemma PrependNothing(rest: Result<Bytes>)
    ensures Prepend([], rest) == rest
  {
    assert rest.Ok? ==> [] + rest.value == rest.value;
  }

  lemma PrependError(front: Bytes, error: string)
    ensures Prepend(front, Err(error)) == Err(error)
  {
  }

  lemma PrependValue(front: Bytes)
    ensures Prepend(front, Ok([])) == Ok(front)
  {
    assert front + [] == front;
  }

  lemma PrependAppend(a: Bytes, b: Bytes, rest: Result<Bytes>)
    ensures Prepend(a, Prepend(b, rest)) == Prepend(a + b, rest)
  {
    if rest.Ok? {
      assert a + (b + rest.value) == (a + b) + rest.value;
    }
  }

  lemma HeaderAccepted(g: Gcm, blobId: Bytes, file: Bytes)
    requires ReadHeader(g, blobId, file).Ok?
    ensures ReadHeader(g, blobId, file).value.header.chunkSize == CHUNK_SIZE
  {
    hide TakeDescriptor, ReadEnvelope, Open, TailAccepted, ChunkCount;
  }

  // ---- Reading back ----

  // The file is a container of `plain` under this header.
  ghost predicate IsContainer(g: Gcm, blobId: Bytes, plain: Bytes, h: Header, headerEnvelope: Bytes, envelopes: seq<Bytes>,
                              file: Bytes) {
    Sealed(g, blobId, plain, h, headerEnvelope, envelopes) && file == Layout(h, headerEnvelope, envelopes)
    && |file| <= MAX_INT64
  }

  lemma LayoutParts(h: Header, headerEnvelope: Bytes, envelopes: seq<Bytes>)
    ensures var file := Layout(h, headerEnvelope, envelopes);
      && file == Descriptor(h) + (Put(headerEnvelope) + Records(envelopes))
      && |file| == 34 + |headerEnvelope| + |Records(envelopes)|
      && file[34 + |headerEnvelope|..] == Records(envelopes)
  {
    hide Be, Records;
  }

  // Seeking to record `index` finds that envelope.
  lemma SeekFindsRecord(h: Header, headerEnvelope: Bytes, envelopes: seq<Bytes>, index: nat)
    requires Framed(h, envelopes) && index < h.chunkCount
    ensures var file := Layout(h, headerEnvelope, envelopes);
      From(file, 34 + |headerEnvelope| + Span(index, h.fullEnvelopeSize)) == Put(envelopes[index]) + Records(envelopes[index + 1..])
    ensures 34 + |headerEnvelope| + Span(index, h.fullEnvelopeSize) <= |Layout(h, headerEnvelope, envelopes)|
  {
    hide Put, Span, Layout;
    var file := Layout(h, headerEnvelope, envelopes);
    LayoutParts(h, headerEnvelope, envelopes);
    RecordAt(envelopes, h.fullEnvelopeSize, index);
    var data, n := 34 + |headerEnvelope|, Span(index, h.fullEnvelopeSize);
    assert file[data..][n..] == file[data + n..];
    assert envelopes[index..][1..] == envelopes[index + 1..];
  }

  lemma TailIsAccepted(h: Header, headerEnvelope: Bytes, envelopes: seq<Bytes>)
    requires Framed(h, envelopes) && |Layout(h, headerEnvelope, envelopes)| <= MAX_INT64
    requires h.fullEnvelopeSize <= MAX_INT32
    ensures TailAccepted(h, Layout(h, headerEnvelope, envelopes), 34 + |headerEnvelope|)
  {
    hide Span, Layout, Overflows, TakeNumber, From, Framed;
    FramedCounts(h, headerEnvelope, envelopes);
    if h.chunkCount > 0 {
      LastRecord(h, headerEnvelope, envelopes);
    }
  }

  lemma FramedCounts(h: Header, headerEnvelope: Bytes, envelopes: seq<Bytes>)
    requires Framed(h, envelopes)
    ensures |envelopes| == h.chunkCount
    ensures h.chunkCount == 0 ==> |Layout(h, headerEnvelope, envelopes)| == 34 + |headerEnvelope|
  {
    hide Be;
    LayoutParts(h, headerEnvelope, envelopes);
  }

  // The last record starts at its stride and ends with the file.
  lemma LastRecord(h: Header, headerEnvelope: Bytes, envelopes: seq<Bytes>)
    requires Framed(h, envelopes) && h.chunkCount > 0 && |envelopes| == h.chunkCount
    requires |Layout(h, headerEnvelope, envelopes)| <= MAX_INT64 && h.fullEnvelopeSize <= MAX_INT32
    ensures var file, data, last := Layout(h, headerEnvelope, envelopes), 34 + |headerEnvelope|, h.chunkCount - 1;
      var offset, e := data + Span(last, h.fullEnvelopeSize), envelopes[last];
      && !Overflows(data, last, h.fullEnvelopeSize) && 0 < |e| <= h.fullEnvelopeSize && offset + 4 + |e| == |file|
      && TakeNumber(From(file, offset), 4) == Some((|e|, e))
  {
    hide Span, Layout, Overflows, TakeNumber, From, Records, Put;
    var data, last := 34 + |headerEnvelope|, h.chunkCount - 1;
    SeekFindsRecord(h, headerEnvelope, envelopes, last);
    LastOfRecords(envelopes);
    NoOverflow(data, last, h.fullEnvelopeSize);
    TakesWhole(envelopes[last]);
    FromIsRest(Layout(h, headerEnvelope, envelopes), data + Span(last, h.fullEnvelopeSize), Put(envelopes[last]));
  }

  lemma LastOfRecords(envelopes: seq<Bytes>)
    requires envelopes != []
    ensures var e := envelopes[|envelopes| - 1]; Put(e) + Records(envelopes[|envelopes|..]) == Put(e)
  {
    hide Put;
  }

  lemma TakesWhole(e: Bytes)
    requires |e| <= MAX_INT32
    ensures |Put(e)| == 4 + |e| && TakeNumber(Put(e), 4) == Some((|e|, e))
  {
    hide TakeNumber;
    Powers();
    TakeNumberOfBe(|e|, 4, e);
  }

  lemma FromIsRest(file: Bytes, offset: nat, rest: Bytes)
    requires offset <= |file| && From(file, offset) == rest
    ensures offset + |rest| == |file|
  {
  }

  lemma HeaderReadBack(g: Gcm, blobId: Bytes, plain: Bytes, h: Header, headerEnvelope: Bytes, envelopes: seq<Bytes>,
                       file: Bytes)
    requires IsContainer(g, blobId, plain, h, headerEnvelope, envelopes, file)
    ensures ReadHeader(g, blobId, file) == Ok(Container(h, 34 + |headerEnvelope|))
  {
    hide Be, Put, Span, Layout, TakeDescriptor, ReadEnvelope, TailAccepted, Open, Records, Descriptor, HeaderContext, Holds;
    LayoutParts(h, headerEnvelope, envelopes);
    TakeDescriptorOf(h, Put(headerEnvelope) + Records(envelopes));
    ReadEnvelopeOfPut(headerEnvelope, Records(envelopes), MAX_ENVELOPE_OVERHEAD);
    TailIsAccepted(h, headerEnvelope, envelopes);
  }

  lemma ChunkReadBack(g: Gcm, blobId: Bytes, plain: Bytes, h: Header, headerEnvelope: Bytes, envelopes: seq<Bytes>,
                      file: Bytes, index: nat)
    requires IsContainer(g, blobId, plain, h, headerEnvelope, envelopes, file) && index < h.chunkCount
    ensures ReadChunk(g, blobId, file, h, 34 + |headerEnvelope|, index) == Ok(ChunkOf(plain, index))
  {
    hide Be, Put, Span, Layout, ReadEnvelope, Overflows, Open, Records, ChunkContext, From;
    SeekFindsRecord(h, headerEnvelope, envelopes, index);
    NoOverflow(34 + |headerEnvelope|, index, h.fullEnvelopeSize);
    ReadEnvelopeOfPut(envelopes[index], Records(envelopes[index + 1..]), h.fullEnvelopeSize);
    assert Holds(g, blobId, plain, h, envelopes, index);
    ChunkSizes(h, |plain|, index);
  }

  // Where position `cursor` is found: in chunk cursor / CHUNK_SIZE, which reaches at least to
  // the next position.
  lemma ChunkHolds(plain: Bytes, cursor: nat, remaining: nat)
    requires 0 < remaining && cursor + remaining <= |plain|
    ensures cursor / CHUNK_SIZE < ChunkCount(|plain|)
    ensures var chunk, start := ChunkOf(plain, cursor / CHUNK_SIZE), cursor % CHUNK_SIZE;
      && start < |chunk|
      && var count := Min(remaining, |chunk| - start);
         chunk[start..start + count] == plain[cursor..cursor + count]
  {
    var index, start := cursor / CHUNK_SIZE, cursor % CHUNK_SIZE;
    assert index < ChunkCount(|plain|);
    var chunk := ChunkOf(plain, index);
    assert index * CHUNK_SIZE + start == cursor;
    var count := Min(remaining, |chunk| - start);
    SliceOfSlice(plain, index * CHUNK_SIZE, |chunk|, start, count);
    assert chunk == plain[index * CHUNK_SIZE..index * CHUNK_SIZE + |chunk|];
  }

  lemma SliceOfSlice(s: Bytes, a: nat, n: nat, start: nat, count: nat)
    requires a + n <= |s| && start + count <= n
    ensures s[a..a + n][start..start + count] == s[a + start..a + start + count]
  {
    var part := s[a..a + n];
    assert forall k :: start <= k < start + count ==> part[k] == s[a + k];
  }

  lemma Split(plain: Bytes, cursor: nat, count: nat, remaining: nat)
    requires count <= remaining && cursor + remaining <= |plain|
    ensures plain[cursor..cursor + remaining] == plain[cursor..cursor + count] + plain[cursor + count..cursor + remaining]
  {
  }

  lemma CollectNothing(g: Gcm, blobId: Bytes, file: Bytes, h: Header, dataOffset: nat, cursor: nat)
    requires h.chunkSize == CHUNK_SIZE
    ensures Collect(g, blobId, file, h, dataOffset, cursor, 0) == Ok([])
  {
  }

  lemma {:induction false} CollectReadBack(g: Gcm, blobId: Bytes, plain: Bytes, h: Header, headerEnvelope: Bytes,
                                           envelopes: seq<Bytes>, file: Bytes, cursor: nat, remaining: nat)
    requires IsContainer(g, blobId, plain, h, headerEnvelope, envelopes, file) && cursor + remaining <= |plain|
    ensures Collect(g, blobId, file, h, 34 + |headerEnvelope|, cursor, remaining) == Ok(plain[cursor..cursor + remaining])
    decreases remaining
  {
    hide ReadChunk, Layout, Framed, Holds, Open, ChunkCount, ChunkOf, Collect;
    CollectNothing(g, blobId, file, h, 34 + |headerEnvelope|, cursor);
    if remaining > 0 {
      ChunkHolds(plain, cursor, remaining);
      var index, start := cursor / CHUNK_SIZE, cursor % CHUNK_SIZE;
      ChunkReadBack(g, blobId, plain, h, headerEnvelope, envelopes, file, index);
      var chunk := ChunkOf(plain, index);
      var count := Min(remaining, |chunk| - start);
      CollectReadBack(g, blobId, plain, h, headerEnvelope, envelopes, file, cursor + count, remaining - count);
      Split(plain, cursor, count, remaining);
      CollectStep(g, blobId, file, h, 34 + |headerEnvelope|, cursor, remaining, chunk);
    } else {
      assert plain[cursor..cursor + remaining] == [];
    }
  }

  // What a reader of `plain` answers: the slice, clipped at the end; a range that starts
  // behind the end, or has a negative bound, is refused.
  predicate IsSliceOf(r: Range, plain: Bytes, offset: int, maxSize: int) {
    if offset < 0 || maxSize < 0 then r.value.Err? && r.totalSize == -1
    else if offset > |plain| then r.value.Err? && r.totalSize == |plain|
    else r.value.Ok? && r.totalSize == |plain| && r.value.value == Slice(plain, offset, maxSize)
  }

  function Slice(plain: Bytes, offset: nat, maxSize: nat): Bytes
    requires offset <= |plain|
  {
    plain[offset..Min(offset + maxSize, |plain|)]
  }

  // The round trip: every range read of a container is that slice of what was written.
  lemma RangeReadBack(g: Gcm, blobId: Bytes, plain: Bytes, h: Header, headerEnvelope: Bytes, envelopes: seq<Bytes>,
                      file: Bytes, offset: int, maxSize: int)
    requires IsContainer(g, blobId, plain, h, headerEnvelope, envelopes, file) && blobId != []
    ensures IsSliceOf(ReadRange(g, blobId, file, offset, maxSize), plain, offset, maxSize)
  {
    hide ReadHeader, Collect, Layout, Framed, Holds, Open;
    if 0 <= offset && 0 <= maxSize {
      HeaderReadBack(g, blobId, plain, h, headerEnvelope, envelopes, file);
      if offset <= |plain| {
        CollectReadBack(g, blobId, plain, h, headerEnvelope, envelopes, file, offset, Min(maxSize, |plain| - offset));
      }
    }
  }

  // ---- Integrity ----

  // Position `p` of the content, as the file authenticates it.
  ghost predicate Authentic(g: Gcm, blobId: Bytes, file: Bytes, h: Header, dataOffset: nat, p: nat, b: Byte) {
    var chunk := ReadChunk(g, blobId, file, h, dataOffset, p / CHUNK_SIZE);
    chunk.Ok? && p % CHUNK_SIZE < |chunk.value| && chunk.value[p % CHUNK_SIZE] == b
  }

  lemma {:induction false} CollectIsAuthentic(g: Gcm, blobId: Bytes, file: Bytes, h: Header, dataOffset: nat, cursor: nat,
                                              remaining: nat)
    requires h.chunkSize == CHUNK_SIZE
    requires Collect(g, blobId, file, h, dataOffset, cursor, remaining).Ok?
    ensures var value := Collect(g, blobId, file, h, dataOffset, cursor, remaining).value;
      |value| == remaining && forall k :: 0 <= k < remaining ==> Authentic(g, blobId, file, h, dataOffset, cursor + k, value[k])
    decreases remaining
  {
    hide ReadChunk;
    if remaining > 0 {
      var value := Collect(g, blobId, file, h, dataOffset, cursor, remaining).value;
      var chunk := ReadChunk(g, blobId, file, h, dataOffset, cursor / CHUNK_SIZE).value;
      var start := cursor % CHUNK_SIZE;
      var count := Min(remaining, |chunk| - start);
      ChunkHasExpectedSize(g, blobId, file, h, dataOffset, cursor / CHUNK_SIZE);
      assert |chunk| <= CHUNK_SIZE;
      CollectIsAuthentic(g, blobId, file, h, dataOffset, cursor + count, remaining - count);
      forall k | 0 <= k < remaining ensures Authentic(g, blobId, file, h, dataOffset, cursor + k, value[k]) {
        if k < count {
          SameChunk(cursor, k);
        } else {
          assert cursor + k == (cursor + count) + (k - count);
        }
      }
    }
  }

  lemma SameChunk(cursor: nat, k: nat)
    requires cursor % CHUNK_SIZE + k < CHUNK_SIZE
    ensures (cursor + k) / CHUNK_SIZE == cursor / CHUNK_SIZE && (cursor + k) % CHUNK_SIZE == cursor % CHUNK_SIZE + k
  {
  }

  // A record sealed for one chunk of one blob does not open as any other chunk, nor for another
  // blob, whatever their sizes.
  lemma SwappedRecordIsRefused(g: Gcm, a: Bytes, h: Header, i: nat, b: Bytes, k: Header, j: nat, chunk: Bytes, nonce: Bytes)
    requires Lawful(g) && |a| == 32 && |b| == 32 && Fits(h) && Fits(k) && i < h.chunkCount && j < k.chunkCount
    requires |chunk| <= CHUNK_SIZE && Seal(g, chunk, ChunkContext(a, h, i), nonce).Some?
    requires (a, i, h.plainSize) != (b, j, k.plainSize)
    ensures Open(g, Seal(g, chunk, ChunkContext(a, h, i), nonce).value, ChunkContext(b, k, j)) == None
  {
    hide Seal, Open, Representable, AssociatedData, ChunkContext, Lawful, Fits;
    ContextsRepresentable(a, h, i);
    ContextsRepresentable(b, k, j);
    if ChunkContext(a, h, i) == ChunkContext(b, k, j) {
      ChunkContextsDiffer(a, h, i, b, k, j);
    }
    SealOpen(g, chunk, ChunkContext(a, h, i), ChunkContext(b, k, j), nonce);
  }

  // Whatever the file holds, a range that is returned has the length asked for and consists
  // of bytes that opened for their own chunk of this blob.
  lemma RangeIsAuthentic(g: Gcm, blobId: Bytes, file: Bytes, offset: int, maxSize: int)
    requires ReadRange(g, blobId, file, offset, maxSize).value.Ok?
    ensures var r := ReadRange(g, blobId, file, offset, maxSize);
      && 0 <= offset <= r.totalSize && 0 <= maxSize
      && |r.value.value| == Min(maxSize, r.totalSize - offset)
      && ReadHeader(g, blobId, file).Ok? && r.totalSize == ReadHeader(g, blobId, file).value.header.plainSize
      && forall k :: 0 <= k < |r.value.value| ==>
           Authentic(g, blobId, file, ReadHeader(g, blobId, file).value.header, ReadHeader(g, blobId, file).value.dataOffset,
                     offset + k, r.value.value[k])
  {
    hide ReadHeader, Collect, Authentic;
    var Container(h, dataOffset) := ReadHeader(g, blobId, file).value;
    CollectIsAuthentic(g, blobId, file, h, dataOffset, offset, Min(maxSize, h.plainSize - offset));
  }
}
