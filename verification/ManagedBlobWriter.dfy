// Importing media: the device's bytes become a chunked container, or an error that says the
// device did not deliver the content it was announced to hold.
module ManagedBlobWriter {
  import opened Basics
  import opened Encoding
  import opened Envelope
  import opened ManagedBlob

  // What the writer is given: the device's bytes and their announced size, the identity to
  // check them against, the two hash functions, and the nonces the encryptions draw.
  datatype Request = Request(
    keysValid: bool, plain: Bytes, plainSize: Int64,
    blobId: Bytes, checksum: Bytes,
    blobHash: Bytes -> Bytes, checksumHash: Bytes -> Bytes,
    nonces: nat -> Bytes, headerNonce: Bytes)

  predicate RequestValid(r: Request) {
    r.plainSize >= 0 && r.keysValid && |r.blobId| == 32 && |r.checksum| == 32
  }

  // The device holds exactly the content it was announced to hold.
  predicate Announced(r: Request) {
    && RequestValid(r) && r.plainSize == |r.plain|
    && r.blobHash(r.plain) == r.blobId && r.checksumHash(r.plain) == r.checksum
  }

  // QIODevice::read at a cursor of the device.
  function DeviceRead(plain: Bytes, cursor: nat, count: nat): Bytes {
    if cursor >= |plain| then [] else plain[cursor..Min(cursor + count, |plain|)]
  }

  // The header the writer settles on once the first chunk is sealed.
  function WrittenHeader(size: nat, full: nat): Header {
    Header(CHUNK_SIZE, size, ChunkCount(size), full)
  }

  // No encryption the writer asks for fails.
  ghost predicate CryptoAvailable(g: Gcm, r: Request) {
    && (forall size: nat, full: nat :: HeaderSeals(g, r, size, full))
    && (forall chunk: Bytes, h: Header, i: nat :: ChunkSeals(g, r, chunk, h, i))
  }

  predicate HeaderSeals(g: Gcm, r: Request, size: nat, full: nat) {
    Seal(g, Descriptor(WrittenHeader(size, full)), HeaderContext(r.blobId), r.headerNonce).Some?
  }

  predicate ChunkSeals(g: Gcm, r: Request, chunk: Bytes, h: Header, i: nat) {
    i < h.chunkCount ==> Seal(g, chunk, ChunkContext(r.blobId, h, i), r.nonces(i)).Some?
  }

  // ---- One record ----

  function ChunkStart(h: Header, i: nat): nat {
    i * h.chunkSize
  }

  // Record i holds its part of `plain`, and has the length that part and its context determine.
  ghost predicate RecordOf(g: Gcm, blobId: Bytes, plain: Bytes, h: Header, e: Bytes, i: nat) {
    && i < h.chunkCount && 0 <= ExpectedChunkSize(h, i) && ChunkStart(h, i) + ExpectedChunkSize(h, i) <= |plain|
    && Open(g, e, ChunkContext(blobId, h, i)) == Some(plain[ChunkStart(h, i)..ChunkStart(h, i) + ExpectedChunkSize(h, i)])
    && |e| == SealedSize(ExpectedChunkSize(h, i), ChunkContext(blobId, h, i))
  }

  lemma SealedRecord(g: Gcm, blobId: Bytes, plain: Bytes, h: Header, chunk: Bytes, i: nat, nonce: Bytes)
    requires Lawful(g) && |blobId| == 32 && Fits(h) && i < h.chunkCount
    requires 0 <= ExpectedChunkSize(h, i) && ChunkStart(h, i) + ExpectedChunkSize(h, i) <= |plain|
    requires chunk == plain[ChunkStart(h, i)..ChunkStart(h, i) + ExpectedChunkSize(h, i)]
    requires Seal(g, chunk, ChunkContext(blobId, h, i), nonce).Some?
    ensures var e := Seal(g, chunk, ChunkContext(blobId, h, i), nonce).value;
      RecordOf(g, blobId, plain, h, e, i) && 0 < |e| < CHUNK_SIZE + 1000
  {
    hide Seal, Open, Representable, AssociatedData, ChunkContext;
    ContextsRepresentable(blobId, h, i);
    ChunkSizes(h, h.plainSize, i);
    SealOpen(g, chunk, ChunkContext(blobId, h, i), ChunkContext(blobId, h, i), nonce);
  }

  // The length of the envelope is not part of a chunk's context, so the first record stays
  // valid when the header learns that length.
  lemma RecordIgnoresEnvelopeSize(g: Gcm, blobId: Bytes, plain: Bytes, h: Header, full: nat, e: Bytes, i: nat)
    requires RecordOf(g, blobId, plain, h, e, i)
    ensures RecordOf(g, blobId, plain, h.(fullEnvelopeSize := full), e, i)
  {
    hide Open, AssociatedData, Decimal, Hex, HexFixed;
    var h' := h.(fullEnvelopeSize := full);
    assert ExpectedChunkSize(h', i) == ExpectedChunkSize(h, i);
    assert ChunkContext(blobId, h', i) == ChunkContext(blobId, h, i);
  }

  // Why the framing is stable: no record is longer than the first, and every record of a
  // full chunk is exactly as long.
  lemma FramingIsStable(g: Gcm, blobId: Bytes, plain: Bytes, h: Header, first: Bytes, e: Bytes, i: nat)
    requires Fits(h) && RecordOf(g, blobId, plain, h, first, 0) && RecordOf(g, blobId, plain, h, e, i)
    ensures |e| <= |first|
    ensures ExpectedChunkSize(h, i) == CHUNK_SIZE ==> |e| == |first|
    ensures i + 1 < h.chunkCount ==> |e| == |first|
  {
    hide Open, AssociatedData, ChunkContext;
    ChunkSizes(h, h.plainSize, 0);
    ChunkSizes(h, h.plainSize, i);
    ContextLengths(blobId, h, 0, i);
  }

  // ---- The records so far ----

  ghost predicate Written(g: Gcm, blobId: Bytes, plain: Bytes, h: Header, envelopes: seq<Bytes>) {
    && |envelopes| <= h.chunkCount
    && (|envelopes| > 0 ==> |envelopes[0]| == h.fullEnvelopeSize && |envelopes[0]| > 0)
    && forall i :: 0 <= i < |envelopes| ==> RecordOf(g, blobId, plain, h, envelopes[i], i)
  }

  lemma WrittenContainer(g: Gcm, blobId: Bytes, plain: Bytes, h: Header, headerEnvelope: Bytes, envelopes: seq<Bytes>)
    requires Fits(h) && h.plainSize == |plain| && Written(g, blobId, plain, h, envelopes) && |envelopes| == h.chunkCount
    requires h.chunkCount == 0 ==> h.fullEnvelopeSize == 0
    requires h.fullEnvelopeSize <= CHUNK_SIZE + MAX_ENVELOPE_OVERHEAD
    requires 0 < |headerEnvelope| <= MAX_ENVELOPE_OVERHEAD
    requires Open(g, headerEnvelope, HeaderContext(blobId)) == Some(Descriptor(h))
    ensures Sealed(g, blobId, plain, h, headerEnvelope, envelopes)
  {
    hide Open, RecordOf, ExpectedChunkSize, ChunkCount, Holds, ChunkContext;
    forall i | 0 <= i < |envelopes|
      ensures 0 < |envelopes[i]| <= h.fullEnvelopeSize
      ensures i < |envelopes| - 1 ==> |envelopes[i]| == h.fullEnvelopeSize
      ensures Holds(g, blobId, plain, h, envelopes, i)
    {
      assert RecordOf(g, blobId, plain, h, envelopes[0], 0) && RecordOf(g, blobId, plain, h, envelopes[i], i);
      FramingIsStable(g, blobId, plain, h, envelopes[0], envelopes[i], i);
      RecordHolds(g, blobId, plain, h, envelopes, i);
    }
  }

  lemma RecordHolds(g: Gcm, blobId: Bytes, plain: Bytes, h: Header, envelopes: seq<Bytes>, i: nat)
    requires Fits(h) && h.plainSize == |plain| && i < |envelopes| <= h.chunkCount
    requires RecordOf(g, blobId, plain, h, envelopes[i], i)
    requires ExpectedChunkSize(h, i) == CHUNK_SIZE ==> |envelopes[i]| == h.fullEnvelopeSize
    ensures Holds(g, blobId, plain, h, envelopes, i) && |envelopes[i]| > 0
  {
    hide Open, ChunkContext, AssociatedData;
    ChunkSizes(h, |plain|, i);
  }

  // The next chunk is read whole exactly if the device still holds that many bytes, and then
  // the cursor stands at the start of the chunk after it.
  lemma NextChunk(plain: Bytes, h: Header, i: nat, cursor: nat)
    requires Fits(h) && i < h.chunkCount && cursor == Min(ChunkStart(h, i), h.plainSize) && cursor <= |plain|
    ensures var expected := ExpectedChunkSize(h, i);
      && 0 < expected && cursor == ChunkStart(h, i)
      && (|DeviceRead(plain, cursor, expected)| == expected <==> cursor + expected <= |plain|)
      && (cursor + expected <= |plain| ==>
            && DeviceRead(plain, cursor, expected) == plain[cursor..cursor + expected]
            && plain[..cursor] + plain[cursor..cursor + expected] == plain[..cursor + expected])
      && cursor + expected == Min(ChunkStart(h, i + 1), h.plainSize)
  {
    ChunkSizes(h, h.plainSize, i);
  }

  // The last chunk ends at the announced size.
  lemma AllChunks(h: Header)
    requires Fits(h)
    ensures Min(ChunkStart(h, h.chunkCount), h.plainSize) == h.plainSize
  {
  }

  ghost predicate ContainerOf(g: Gcm, r: Request, output: Bytes) {
    exists h, headerEnvelope, envelopes ::
      Sealed(g, r.blobId, r.plain, h, headerEnvelope, envelopes) && output == Layout(h, headerEnvelope, envelopes)
  }

  // One turn of the writer's reading and sealing: the chunk, sealed.
  function ReadAndSeal(g: Gcm, r: Request, h: Header, cursor: nat, i: nat): Result<(Bytes, Bytes)>
    requires i < h.chunkCount
  {
    var expected := Max(0, ExpectedChunkSize(h, i));
    var chunk := DeviceRead(r.plain, cursor, expected);
    if |chunk| != expected then Err("Could not read media source")
    else
      match Seal(g, chunk, ChunkContext(r.blobId, h, i), r.nonces(i))
      case None => Err("Could not encrypt media chunk")
      case Some(e) => Ok((chunk, e))
  }

  // What a turn achieves, and when it cannot fail.
  lemma TurnSeals(g: Gcm, r: Request, h: Header, cursor: nat, i: nat)
    requires |r.blobId| == 32 && Fits(h) && i < h.chunkCount
    requires cursor == Min(ChunkStart(h, i), h.plainSize) && cursor <= |r.plain|
    ensures var turn := ReadAndSeal(g, r, h, cursor, i);
      && (turn.Ok? ==>
            && cursor + |turn.value.0| == Min(ChunkStart(h, i + 1), h.plainSize) && cursor + |turn.value.0| <= |r.plain|
            && r.plain[..cursor] + turn.value.0 == r.plain[..cursor + |turn.value.0|]
            && (Lawful(g) ==> RecordOf(g, r.blobId, r.plain, h, turn.value.1, i) && 0 < |turn.value.1| < CHUNK_SIZE + 1000))
      && (CryptoAvailable(g, r) && h.plainSize == |r.plain| ==> turn.Ok?)
  {
    hide Seal, Open, ChunkContext, DeviceRead, ExpectedChunkSize, ChunkStart, AssociatedData, ChunkCount, RecordOf,
      Lawful, HeaderSeals;
    NextChunk(r.plain, h, i, cursor);
    var expected := ExpectedChunkSize(h, i);
    var chunk := DeviceRead(r.plain, cursor, expected);
    assert CryptoAvailable(g, r) ==> ChunkSeals(g, r, chunk, h, i);
    if Lawful(g) && ReadAndSeal(g, r, h, cursor, i).Ok? {
      SealedRecord(g, r.blobId, r.plain, h, chunk, i, r.nonces(i));
    }
  }

  lemma HeaderIsSmall(g: Gcm, r: Request, size: nat, full: nat)
    requires |r.blobId| == 32 && Fits(WrittenHeader(size, full))
    ensures var h := WrittenHeader(size, full);
      var sealed := Seal(g, Descriptor(h), HeaderContext(r.blobId), r.headerNonce);
      && (Lawful(g) && sealed.Some? ==>
            0 < |sealed.value| <= MAX_ENVELOPE_OVERHEAD && Open(g, sealed.value, HeaderContext(r.blobId)) == Some(Descriptor(h)))
      && (CryptoAvailable(g, r) ==> sealed.Some?)
  {
    hide Seal, Open, AssociatedData, Representable, HeaderContext, ChunkSeals, Lawful, Descriptor;
    var h := WrittenHeader(size, full);
    assert CryptoAvailable(g, r) ==> HeaderSeals(g, r, size, full);
    DescriptorSize(h);
    if Lawful(g) && Seal(g, Descriptor(h), HeaderContext(r.blobId), r.headerNonce).Some? {
      ContextsRepresentable(r.blobId, h, 0);
      SealOpen(g, Descriptor(h), HeaderContext(r.blobId), HeaderContext(r.blobId), r.headerNonce);
    }
  }

  lemma DescriptorSize(h: Header)
    ensures |Descriptor(h)| == 30
  {
    hide Be;
  }

  lemma HeaderFits(size: nat, full: nat)
    requires size <= MAX_INT64 && full <= MAX_UINT32
    ensures Fits(WrittenHeader(size, full))
  {
  }

  lemma LayoutGrows(h: Header, headerEnvelope: Bytes, envelopes: seq<Bytes>, e: Bytes)
    ensures Layout(h, headerEnvelope, envelopes + [e]) == Layout(h, headerEnvelope, envelopes) + Put(e)
    ensures Layout(h, headerEnvelope, []) == Descriptor(h) + Put(headerEnvelope)
  {
    hide Put, Descriptor;
    RecordsAppend(envelopes, [e]);
    assert [e][1..] == [];
    assert Records([e]) == Put(e) + [] == Put(e);
  }

  // A further record fits the frame and extends what is written.
  lemma RecordFits(g: Gcm, r: Request, h: Header, envelopes: seq<Bytes>, e: Bytes)
    requires Fits(h) && Written(g, r.blobId, r.plain, h, envelopes) && RecordOf(g, r.blobId, r.plain, h, e, |envelopes|)
    requires envelopes == [] ==> |e| == h.fullEnvelopeSize && |e| > 0
    ensures |e| <= h.fullEnvelopeSize
    ensures |envelopes| + 1 < h.chunkCount ==> |e| == h.fullEnvelopeSize
    ensures Written(g, r.blobId, r.plain, h, envelopes + [e])
  {
    hide Fits, RecordOf;
    RecordInRange(g, r.blobId, r.plain, h, e, |envelopes|);
    if envelopes != [] {
      assert RecordOf(g, r.blobId, r.plain, h, envelopes[0], 0);
      FramingIsStable(g, r.blobId, r.plain, h, envelopes[0], e, |envelopes|);
    }
  }

  lemma RecordInRange(g: Gcm, blobId: Bytes, plain: Bytes, h: Header, e: Bytes, i: nat)
    requires RecordOf(g, blobId, plain, h, e, i)
    ensures i < h.chunkCount
  {
  }

  lemma AllRecords(g: Gcm, r: Request, h: Header, headerEnvelope: Bytes, envelopes: seq<Bytes>)
    requires h == WrittenHeader(|r.plain|, h.fullEnvelopeSize) && Fits(h) && |envelopes| == h.chunkCount
    requires Written(g, r.blobId, r.plain, h, envelopes)
    requires h.chunkCount == 0 ==> h.fullEnvelopeSize == 0
    requires h.fullEnvelopeSize <= CHUNK_SIZE + MAX_ENVELOPE_OVERHEAD && 0 < |headerEnvelope| <= MAX_ENVELOPE_OVERHEAD
    requires Open(g, headerEnvelope, HeaderContext(r.blobId)) == Some(Descriptor(h))
    ensures ContainerOf(g, r, Layout(h, headerEnvelope, envelopes))
  {
    hide Open, Written, Sealed, Layout, Fits, ChunkCount;
    WrittenContainer(g, r.blobId, r.plain, h, headerEnvelope, envelopes);
  }

  // writeManagedChunkedBlob, into memory: it succeeds exactly on a device that holds what was
  // announced (as long as encryption works), and then has written a container of it. Its
  // errors about unstable framing and oversized records never occur.
  method WriteManagedChunkedBlob(g: Gcm, r: Request) returns (result: Result<Bytes>)
    ensures result.Ok? ==> Announced(r)
    ensures result.Ok? && Lawful(g) ==> ContainerOf(g, r, result.value)
    ensures Announced(r) && Lawful(g) && CryptoAvailable(g, r) ==> result.Ok?
  {
    hide Seal, Open, ChunkContext, DeviceRead, ChunkStart, AssociatedData, ChunkCount, Lawful, CryptoAvailable, HeaderContext,
      Descriptor, Put, Records, Written, Fits, Layout, ContainerOf, Min;
    if !RequestValid(r) {
      return Err("Invalid chunked media write request");
    }
    var sealed := SealFirst(g, r);
    if sealed.Err? {
      return Err(sealed.error);
    }
    var (hashed, firstEnvelope) := sealed.value;
    var h := WrittenHeader(r.plainSize, |firstEnvelope|);
    ghost var envelopes: seq<Bytes> := FirstOf(h, firstEnvelope);
    AllChunks(h);
    var cursor: nat := |hashed|;
    HeaderIsSmall(g, r, r.plainSize, h.fullEnvelopeSize);
    var headerEnvelope := Seal(g, Descriptor(h), HeaderContext(r.blobId), r.headerNonce);
    if headerEnvelope.None? {
      return Err("Could not encrypt media header");
    }
    if |headerEnvelope.value| > MAX_ENVELOPE_OVERHEAD {
      return Err("Encrypted media header is unexpectedly large");
    }
    if headerEnvelope.value == [] {
      return Err("Could not write media header");
    }
    LayoutGrows(h, headerEnvelope.value, [], firstEnvelope);
    var output := Descriptor(h) + Put(headerEnvelope.value);
    if h.chunkCount > 0 {
      if firstEnvelope == [] {
        return Err("Could not write media chunk");
      }
      output := output + Put(firstEnvelope);
      assert [] + [firstEnvelope] == [firstEnvelope];
    }
    var written;
    written, envelopes := WriteRecords(g, r, h, headerEnvelope.value, output, hashed, envelopes);
    if written.Err? {
      return Err(written.error);
    }
    output, hashed, cursor := written.value.0, written.value.1, |written.value.1|;
    ExtraByte(r.plain, cursor);
    var extra := DeviceRead(r.plain, cursor, 1);
    if extra != [] || cursor + |extra| != |r.plain| {
      return Err("Media source changed while it was being imported");
    }
    assert hashed == r.plain;
    if r.blobHash(hashed) != r.blobId || r.checksumHash(hashed) != r.checksum {
      return Err("Media source changed while it was being imported");
    }
    if Lawful(g) {
      AllRecords(g, r, h, headerEnvelope.value, envelopes);
    }
    result := Ok(output);
  }

  function FirstOf(h: Header, e: Bytes): seq<Bytes> {
    if h.chunkCount == 0 then [] else [e]
  }

  // The first chunk, if there is one, is sealed before the header: its length is recorded there.
  // Answers the bytes read and the record.
  method SealFirst(g: Gcm, r: Request) returns (result: Result<(Bytes, Bytes)>)
    requires RequestValid(r)
    ensures result.Ok? ==>
      var (hashed, e) := result.value;
      var h := WrittenHeader(r.plainSize, |e|);
      && Fits(h) && (h.chunkCount == 0 ==> e == [])
      && |hashed| == Min(ChunkStart(h, |FirstOf(h, e)|), r.plainSize) <= |r.plain| && hashed == r.plain[..|hashed|]
      && (Lawful(g) ==>
            && Written(g, r.blobId, r.plain, h, FirstOf(h, e)) && |e| < CHUNK_SIZE + 1000
            && (h.chunkCount > 0 ==> e != []))
    ensures Lawful(g) && CryptoAvailable(g, r) && r.plainSize == |r.plain| ==> result.Ok?
  {
    hide Seal, Open, ChunkContext, DeviceRead, ExpectedChunkSize, ChunkStart, AssociatedData, ChunkCount, RecordOf, Lawful,
      CryptoAvailable, ReadAndSeal, Written, Fits, Min;
    var h := WrittenHeader(r.plainSize, 0);
    HeaderFits(r.plainSize, 0);
    StartOfFirst(h);
    var hashed: Bytes := [];
    var firstEnvelope: Bytes := [];
    NothingWritten(g, r, h);
    if h.chunkCount > 0 {
      TurnSeals(g, r, h, 0, 0);
      var first := ReadAndSeal(g, r, h, 0, 0);
      if first.Err? {
        return Err(first.error);
      }
      hashed, firstEnvelope := first.value.0, first.value.1;
      if |firstEnvelope| > MAX_UINT32 {
        return Err("Encrypted media chunk is too large");
      }
      if Lawful(g) {
        RecordIgnoresEnvelopeSize(g, r.blobId, r.plain, h, |firstEnvelope|, firstEnvelope, 0);
      }
      HeaderFits(r.plainSize, |firstEnvelope|);
      StartIgnoresEnvelopeSize(h, |firstEnvelope|);
      h := WrittenHeader(r.plainSize, |firstEnvelope|);
      NothingWritten(g, r, h);
      if Lawful(g) {
        RecordFits(g, r, h, [], firstEnvelope);
        assert [] + [firstEnvelope] == [firstEnvelope];
      }
    }
    result := Ok((hashed, firstEnvelope));
  }

  // The loop over the records after the first: extends the output by them, and the bytes read by
  // their chunks. `first` is what is written before it.
  method WriteRecords(g: Gcm, r: Request, h: Header, ghost headerEnvelope: Bytes, start: Bytes, read: Bytes,
                      ghost first: seq<Bytes>)
    returns (result: Result<(Bytes, Bytes)>, ghost envelopes: seq<Bytes>)
    requires |r.blobId| == 32 && Fits(h) && |first| == if h.chunkCount == 0 then 0 else 1
    requires var cursor := Min(ChunkStart(h, |first|), h.plainSize);
      cursor <= |r.plain| && |read| == cursor && read == r.plain[..cursor]
    requires start == Layout(h, headerEnvelope, first) && (Lawful(g) ==> Written(g, r.blobId, r.plain, h, first))
    ensures result.Ok? ==>
      && |envelopes| == h.chunkCount && result.value.0 == Layout(h, headerEnvelope, envelopes)
      && |result.value.1| == Min(ChunkStart(h, h.chunkCount), h.plainSize) <= |r.plain|
      && result.value.1 == r.plain[..|result.value.1|]
      && (Lawful(g) ==> Written(g, r.blobId, r.plain, h, envelopes))
    ensures Lawful(g) && CryptoAvailable(g, r) && h.plainSize == |r.plain| ==> result.Ok?
  {
    hide Seal, Open, ChunkContext, DeviceRead, ExpectedChunkSize, ChunkStart, AssociatedData, ChunkCount, RecordOf, Lawful,
      CryptoAvailable, HeaderContext, Descriptor, Put, Records, ReadAndSeal, Written, Fits, Layout;
    var output, hashed, cursor := start, read, |read|;
    envelopes := first;
    var index := 1;
    while index < h.chunkCount
      invariant h.chunkCount > 0 ==> index <= h.chunkCount
      invariant |envelopes| == if h.chunkCount == 0 then 0 else index
      invariant |hashed| == cursor == Min(ChunkStart(h, |envelopes|), h.plainSize) <= |r.plain| && hashed == r.plain[..cursor]
      invariant output == Layout(h, headerEnvelope, envelopes)
      invariant Lawful(g) ==> Written(g, r.blobId, r.plain, h, envelopes)
    {
      TurnSeals(g, r, h, cursor, index);
      var next := ReadAndSeal(g, r, h, cursor, index);
      if next.Err? {
        return Err(next.error), envelopes;
      }
      var (chunk, e) := next.value;
      hashed := hashed + chunk;
      if Lawful(g) {
        RecordFits(g, r, h, envelopes, e);
      }
      if index + 1 < h.chunkCount && |e| != h.fullEnvelopeSize {
        return Err("Encrypted media chunk framing is not stable"), envelopes;
      }
      if |e| > h.fullEnvelopeSize {
        return Err("Encrypted media tail chunk is unexpectedly large"), envelopes;
      }
      if e == [] {
        return Err("Could not write media chunk"), envelopes;
      }
      LayoutGrows(h, headerEnvelope, envelopes, e);
      output, envelopes, cursor := output + Put(e), envelopes + [e], cursor + |chunk|;
      index := index + 1;
    }
    result := Ok((output, hashed));
  }

  lemma NothingWritten(g: Gcm, r: Request, h: Header)
    ensures Written(g, r.blobId, r.plain, h, [])
  {
  }

  lemma StartOfFirst(h: Header)
    ensures Min(ChunkStart(h, 0), h.plainSize) == 0
  {
  }

  lemma StartIgnoresEnvelopeSize(h: Header, full: nat)
    ensures ChunkStart(h.(fullEnvelopeSize := full), 1) == ChunkStart(h, 1)
  {
  }

  lemma ExtraByte(plain: Bytes, cursor: nat)
    requires cursor <= |plain|
    ensures DeviceRead(plain, cursor, 1) == [] <==> cursor == |plain|
  {
  }

  // What was imported reads back: any range of the written container is that slice of the device.
  lemma ImportReadsBack(g: Gcm, r: Request, output: Bytes, offset: int, maxSize: int)
    requires ContainerOf(g, r, output) && |output| <= MAX_INT64 && r.blobId != []
    ensures IsSliceOf(ReadRange(g, r.blobId, output, offset, maxSize), r.plain, offset, maxSize)
  {
    hide Sealed, Layout, ReadRange, IsSliceOf;
    var h, headerEnvelope, envelopes :|
      Sealed(g, r.blobId, r.plain, h, headerEnvelope, envelopes) && output == Layout(h, headerEnvelope, envelopes);
    RangeReadBack(g, r.blobId, r.plain, h, headerEnvelope, envelopes, output, offset, maxSize);
  }

  // Containers exist: with a working cipher the empty content has one.
  lemma EmptyContentHasContainer(g: Gcm, blobId: Bytes, nonce: Bytes)
    requires Lawful(g) && Available(g) && |blobId| == 32 && |nonce| == NONCE_SIZE
    ensures exists h, headerEnvelope, file :: IsContainer(g, blobId, [], h, headerEnvelope, [], file)
  {
    hide AssociatedData, Representable, Lawful, Open, Descriptor, Hex, Put;
    var h := WrittenHeader(0, 0);
    HeaderFits(0, 0);
    ContextsRepresentable(blobId, h, 0);
    DescriptorSize(h);
    var sealed := Seal(g, Descriptor(h), HeaderContext(blobId), nonce);
    ContextIsNamed(blobId);
    assert sealed.Some?;
    SealOpen(g, Descriptor(h), HeaderContext(blobId), HeaderContext(blobId), nonce);
    WrittenContainer(g, blobId, [], h, sealed.value, []);
    LayoutParts(h, sealed.value, []);
    assert IsContainer(g, blobId, [], h, sealed.value, [], Layout(h, sealed.value, []));
  }

  lemma ContextIsNamed(blobId: Bytes)
    requires |blobId| == 32
    ensures HeaderContext(blobId).itemId != ""
  {
    assert |Hex(blobId)| == 64;
  }
}
