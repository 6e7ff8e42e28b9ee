// Moving content out of encrypted storage (LocalMediaStore::moveToFile), with every state of
// the disk at which the process may stop.
module MediaMove {
  import opened Basics
  import opened Envelope
  import opened ManagedBlob
  import opened MediaStore

  // The blob of this content is intact.
  ghost predicate Stored(c: Crypto, blobId: Bytes, plain: Bytes, file: Bytes) {
    exists h, headerEnvelope, envelopes :: IsContainer(c.g, blobId, plain, h, headerEnvelope, envelopes, file)
  }

  lemma StoredRange(c: Crypto, blobId: Bytes, plain: Bytes, file: Bytes, offset: int, maxSize: int)
    requires Stored(c, blobId, plain, file) && blobId != []
    ensures IsSliceOf(ReadRange(c.g, blobId, file, offset, maxSize), plain, offset, maxSize)
  {
    hide IsContainer, ReadRange, IsSliceOf;
    var h, headerEnvelope, envelopes :| IsContainer(c.g, blobId, plain, h, headerEnvelope, envelopes, file);
    RangeReadBack(c.g, blobId, plain, h, headerEnvelope, envelopes, file, offset, maxSize);
  }

  lemma StoredData(c: Crypto, blobId: Bytes, plain: Bytes, file: Bytes)
    requires Stored(c, blobId, plain, file) && blobId != []
    ensures ManagedData(c, blobId, file) == Ok(plain)
  {
    hide Stored, ReadRange;
    StoredRange(c, blobId, plain, file, 0, 0);
    StoredRange(c, blobId, plain, file, 0, |plain|);
    assert Slice(plain, 0, |plain|) == plain;
  }

  lemma TotalFits(g: Gcm, blobId: Bytes, file: Bytes, offset: int, maxSize: int)
    requires ReadRange(g, blobId, file, offset, maxSize).value.Ok?
    ensures ReadRange(g, blobId, file, offset, maxSize).totalSize <= MAX_INT64
  {
    hide TakeDescriptor, ReadEnvelope, Open, TailAccepted, ChunkCount, Collect;
  }

  // The bytes the copying loop writes from `offset` on.
  function CopyOut(c: Crypto, blobId: Bytes, file: Bytes, offset: nat): Result<Bytes>
    decreases Max(0, MAX_INT64 + 1 - offset)
  {
    hide ReadRange;
    var range := ReadRange(c.g, blobId, file, offset, CHUNK_SIZE);
    if range.value.Err? then range.value
    else if range.value.value == [] && offset < range.totalSize then Err("The encrypted media ended unexpectedly")
    else
      var next := offset + |range.value.value|;
      if next >= range.totalSize then range.value
      else
        TotalFits(c.g, blobId, file, offset, CHUNK_SIZE);
        Prepend(range.value.value, CopyOut(c, blobId, file, next))
  }

  lemma {:induction false} CopyOutIsContent(c: Crypto, blobId: Bytes, plain: Bytes, file: Bytes, offset: nat)
    requires Stored(c, blobId, plain, file) && blobId != [] && offset <= |plain|
    ensures CopyOut(c, blobId, file, offset) == Ok(plain[offset..])
    decreases |plain| - offset
  {
    hide Stored, ReadRange;
    StoredRange(c, blobId, plain, file, offset, CHUNK_SIZE);
    var value := Slice(plain, offset, CHUNK_SIZE);
    if offset + |value| < |plain| {
      CopyOutIsContent(c, blobId, plain, file, offset + |value|);
      assert plain[offset..] == value + plain[offset + |value|..];
    } else {
      assert plain[offset..] == value;
    }
  }

  // What may go wrong, and what someone else may have put in place of the saved file before
  // it is read again.
  datatype Faults = Faults(keyAvailable: bool, opens: bool, commits: bool, modified: int, altered: Option<File>, reopens: bool,
                           locatorWritten: bool, removed: bool)

  // A run: its result and the states the disk went through, in order.
  datatype Run = Run(result: Result<Reference>, states: seq<Disk>)

  function SavedFile(content: Bytes, f: Faults): File {
    if f.altered.Some? then f.altered.value else File(content, f.modified)
  }

  predicate Matches(c: Crypto, r: Reference, content: Bytes) {
    |content| <= MAX_INT64 && c.mac(content) == r.blobId && (r.checksum == [] || c.sha(content) == r.checksum)
  }

  function LocatorFor(c: Crypto, fileName: string, file: File): Source
    requires |file.content| <= MAX_INT64
  {
    Source(fileName, |file.content|, file.modified, c.mac(file.content), c.sha(file.content), CHUNK_SIZE,
           ChunkHashes(c.sha, file.content))
  }

  function Saved(d: Disk, fileName: string, file: File): Disk {
    d.(files := d.files[fileName := file])
  }

  function Located(d: Disk, blobId: Bytes, s: Source): Disk {
    d.(byContent := d.byContent[blobId := Some(s)])
  }

  function Removed(d: Disk, blobId: Bytes): Disk {
    d.(blobs := d.blobs - {blobId})
  }

  // The second half: the saved file is verified, located, and then the encrypted copy goes.
  function Relocate(c: Crypto, d: Disk, r: Reference, fileName: string, file: File, f: Faults): (run: Run)
    ensures |run.states| >= 1 && run.states[0] == d
  {
    if !f.reopens || !Matches(c, r, file.content) then
      Run(Err("The saved file does not match the encrypted media"), [d])
    else if !f.locatorWritten then Run(Err("The locator could not be written"), [d])
    else
      var located := Located(d, r.blobId, LocatorFor(c, fileName, file));
      if !f.removed then
        Run(Err("The file was saved, but its encrypted copy could not be removed"), [d, located])
      else Run(Ok(r), [d, located, Removed(located, r.blobId)])
  }

  function Move(c: Crypto, d: Disk, r: Reference, fileName: string, f: Faults): (run: Run)
    ensures |run.states| >= 1 && run.states[0] == d
  {
    if !r.IsValid() || r.blobId == [] || r.blobId !in d.blobs then Run(Err("The media is not in encrypted storage"), [d])
    else if !f.keyAvailable || !f.opens then Run(Err("The key or the file is not available"), [d])
    else
      match CopyOut(c, r.blobId, d.blobs[r.blobId], 0)
      case Err(e) => Run(Err(e), [d])
      case Ok(content) =>
        if !f.commits then Run(Err("The file could not be saved"), [d])
        else
          var file := SavedFile(content, f);
          var rest := Relocate(c, Saved(d, fileName, file), r, fileName, file, f);
          Run(rest.result, [d, Saved(d, fileName, File(content, f.modified))] + rest.states)
  }

  // ---- What a move keeps ----

  lemma ValidLocator(c: Crypto, fileName: string, file: File)
    requires |file.content| <= MAX_INT64 && HashSizes(c) && fileName != ""
    ensures ValidSource(LocatorFor(c, fileName, file)) && HasFingerprint(LocatorFor(c, fileName, file))
    ensures Verified(c, LocatorFor(c, fileName, file), file.content)
  {
    hide ChunkOf;
  }

  // A reference finds moved content exactly if it is a valid reference of that size and
  // checksum; one that has its own locator follows that instead.
  lemma MovedContentIsFound(c: Crypto, d: Disk, q: Reference, plain: Bytes, fileName: string, file: File)
    requires HashSizes(c) && |plain| <= MAX_INT64 && file.content == plain && fileName != ""
    requires q.blobId == c.mac(plain) && q.blobId !in d.blobs && q.id !in d.byId
    requires fileName in d.files && d.files[fileName] == file
    requires q.blobId in d.byContent && d.byContent[q.blobId] == Some(LocatorFor(c, fileName, file))
    ensures Data(c, d, q) == Ok(plain)
            <==> q.IsValid() && q.size == |plain| && (q.checksum == [] || q.checksum == c.sha(plain))
  {
    hide ChunkHashes, ChunksMatch, HasFingerprint, ValidSource, Verified;
    ValidLocator(c, fileName, file);
    var s := LocatorFor(c, fileName, file);
    assert |c.sha(plain)| == 32;
    assert LoadExternalSource(d, q) == Ok(s);
    assert RevisionMatches(s, d.files);
    assert ExternalSource(d, q).Ok? ==> ExternalSource(d, q).value == s;
  }

  // Crash safety. At every state a move goes through, as long as the encrypted copy is there
  // every reference to that content reads it; once it is gone, every reference of that size and
  // checksum without a locator of its own still does.
  lemma MoveIsCrashSafe(c: Crypto, d: Disk, r: Reference, fileName: string, f: Faults, plain: Bytes, q: Reference, i: nat)
    requires HashSizes(c) && CollisionFree(c, plain) && |plain| <= MAX_INT64 && fileName != ""
    requires r.blobId == c.mac(plain) && r.blobId in d.blobs && Stored(c, r.blobId, plain, d.blobs[r.blobId])
    requires q.blobId == r.blobId && i < |Move(c, d, r, fileName, f).states|
    ensures var s := Move(c, d, r, fileName, f).states[i];
      && (r.blobId in s.blobs ==> Data(c, s, q) == Ok(plain))
      && (r.blobId !in s.blobs && q.id !in s.byId ==>
            (Data(c, s, q) == Ok(plain)
             <==> q.IsValid() && q.size == |plain| && (q.checksum == [] || q.checksum == c.sha(plain))))
  {
    hide Stored, Data, Move, LocatorFor, IsLocated, CopyOut, HashSizes, CollisionFree;
    var s := Move(c, d, r, fileName, f).states[i];
    HashIsNotEmpty(c, plain);
    CopyOutIsContent(c, r.blobId, plain, d.blobs[r.blobId], 0);
    assert plain[0..] == plain;
    if r.blobId in s.blobs {
      BlobStays(c, d, r, fileName, f, i);
      BlobIsRead(c, s, q, plain);
    } else if q.id !in s.byId {
      BlobGoesLast(c, d, r, fileName, f, plain, i);
      LocatedContent(c, s, plain, fileName, SavedFile(plain, f));
      LocatedIsFound(c, s, q, plain, fileName, SavedFile(plain, f));
    }
  }

  // As long as the encrypted copy is there it is the same.
  lemma BlobStays(c: Crypto, d: Disk, r: Reference, fileName: string, f: Faults, i: nat)
    requires i < |Move(c, d, r, fileName, f).states| && r.blobId in Move(c, d, r, fileName, f).states[i].blobs
    ensures var s := Move(c, d, r, fileName, f).states[i]; r.blobId in d.blobs && s.blobs[r.blobId] == d.blobs[r.blobId]
  {
    hide CopyOut, LocatorFor, Matches;
  }

  lemma BlobIsRead(c: Crypto, s: Disk, q: Reference, plain: Bytes)
    requires q.blobId != [] && q.blobId in s.blobs && Stored(c, q.blobId, plain, s.blobs[q.blobId])
    ensures Data(c, s, q) == Ok(plain)
  {
    hide Stored, ManagedData, ExternalSource;
    StoredData(c, q.blobId, plain, s.blobs[q.blobId]);
  }

  // The saved file is in place and its locator recorded.
  predicate IsLocated(c: Crypto, s: Disk, blobId: Bytes, fileName: string, file: File) {
    && |file.content| <= MAX_INT64 && c.mac(file.content) == blobId
    && fileName in s.files && s.files[fileName] == file
    && blobId in s.byContent && s.byContent[blobId] == Some(LocatorFor(c, fileName, file))
  }

  // Once the encrypted copy is gone, the saved file is in place and its locator recorded.
  lemma BlobGoesLast(c: Crypto, d: Disk, r: Reference, fileName: string, f: Faults, plain: Bytes, i: nat)
    requires i < |Move(c, d, r, fileName, f).states| && r.blobId in d.blobs
    requires r.blobId !in Move(c, d, r, fileName, f).states[i].blobs
    requires CopyOut(c, r.blobId, d.blobs[r.blobId], 0) == Ok(plain)
    ensures IsLocated(c, Move(c, d, r, fileName, f).states[i], r.blobId, fileName, SavedFile(plain, f))
  {
    hide CopyOut, Relocate, IsLocated, Saved;
    var file := SavedFile(plain, f);
    SavedIsThere(d, fileName, file);
    SavedIsThere(d, fileName, File(plain, f.modified));
    RelocateGoesLast(c, Saved(d, fileName, file), r, fileName, file, f, i - 2);
  }

  lemma SavedIsThere(d: Disk, fileName: string, file: File)
    ensures var s := Saved(d, fileName, file);
      s.blobs == d.blobs && fileName in s.files && s.files[fileName] == file
  {
  }

  lemma RelocateGoesLast(c: Crypto, d: Disk, r: Reference, fileName: string, file: File, f: Faults, i: int)
    requires 0 <= i < |Relocate(c, d, r, fileName, file, f).states|
    requires r.blobId in d.blobs && r.blobId !in Relocate(c, d, r, fileName, file, f).states[i].blobs
    requires fileName in d.files && d.files[fileName] == file
    ensures IsLocated(c, Relocate(c, d, r, fileName, file, f).states[i], r.blobId, fileName, file)
  {
    hide LocatorFor;
  }

  lemma HashIsNotEmpty(c: Crypto, b: Bytes)
    requires HashSizes(c)
    ensures c.mac(b) != []
  {
    assert |c.mac(b)| == 32;
  }

  // What has the content's id is the content.
  lemma LocatedContent(c: Crypto, s: Disk, plain: Bytes, fileName: string, file: File)
    requires CollisionFree(c, plain) && IsLocated(c, s, c.mac(plain), fileName, file)
    ensures file.content == plain
  {
  }

  lemma LocatedIsFound(c: Crypto, s: Disk, q: Reference, plain: Bytes, fileName: string, file: File)
    requires HashSizes(c) && |plain| <= MAX_INT64 && file.content == plain && fileName != ""
    requires q.blobId == c.mac(plain) && q.blobId !in s.blobs && q.id !in s.byId
    requires IsLocated(c, s, q.blobId, fileName, file)
    ensures Data(c, s, q) == Ok(plain)
            <==> q.IsValid() && q.size == |plain| && (q.checksum == [] || q.checksum == c.sha(plain))
  {
    hide Data, LocatorFor;
    MovedContentIsFound(c, s, q, plain, fileName, file);
  }

  // A move succeeds exactly if nothing goes wrong, the file on disk still is the content, and
  // the reference's checksum, if it has one, is the content's.
  lemma MoveSucceeds(c: Crypto, d: Disk, r: Reference, fileName: string, f: Faults, plain: Bytes)
    requires HashSizes(c) && CollisionFree(c, plain) && |plain| <= MAX_INT64
    requires r.blobId == c.mac(plain) && r.blobId in d.blobs && Stored(c, r.blobId, plain, d.blobs[r.blobId])
    ensures Move(c, d, r, fileName, f).result.Ok?
            <==> && r.IsValid() && f.keyAvailable && f.opens && f.commits && f.reopens && f.locatorWritten && f.removed
                 && SavedFile(plain, f).content == plain && (r.checksum == [] || r.checksum == c.sha(plain))
  {
    hide Stored, CopyOut, LocatorFor;
    assert |c.mac(plain)| == 32;
    CopyOutIsContent(c, r.blobId, plain, d.blobs[r.blobId], 0);
    assert plain[0..] == plain;
  }

  // What the data of a reference depends on.
  lemma DataDependsOn(c: Crypto, d: Disk, e: Disk, q: Reference)
    requires e.byId == d.byId
    requires q.blobId in e.blobs <==> q.blobId in d.blobs
    requires q.blobId in d.blobs ==> e.blobs[q.blobId] == d.blobs[q.blobId]
    requires q.blobId in e.byContent <==> q.blobId in d.byContent
    requires q.blobId in d.byContent ==> e.byContent[q.blobId] == d.byContent[q.blobId]
    requires LoadExternalSource(d, q).Ok? ==> SameFile(d, e, LoadExternalSource(d, q).value.fileName)
    ensures Data(c, e, q) == Data(c, d, q)
  {
    hide ManagedData, ExternalSource, ExternalData, LoadExternalSource;
    LocatorDependsOn(d, e, q);
    SourceDependsOn(d, e, q);
    if ExternalSource(d, q).Ok? {
      ContentDependsOn(c, d, e, q);
    }
  }

  // The locator found depends on the locators only ...
  lemma LocatorDependsOn(d: Disk, e: Disk, q: Reference)
    requires e.byId == d.byId && (q.blobId in e.byContent <==> q.blobId in d.byContent)
    requires q.blobId in d.byContent ==> e.byContent[q.blobId] == d.byContent[q.blobId]
    ensures LoadExternalSource(e, q) == LoadExternalSource(d, q)
  {
    hide ValidSource;
  }

  // ... whether it leads to a source, on the file it names ...
  lemma SourceDependsOn(d: Disk, e: Disk, q: Reference)
    requires LoadExternalSource(e, q) == LoadExternalSource(d, q)
    requires LoadExternalSource(d, q).Ok? ==> SameFile(d, e, LoadExternalSource(d, q).value.fileName)
    ensures ExternalSource(e, q) == ExternalSource(d, q)
  {
    hide LoadExternalSource;
  }

  // ... and so does what is read.
  lemma ContentDependsOn(c: Crypto, d: Disk, e: Disk, q: Reference)
    requires ExternalSource(d, q).Ok? && ExternalSource(e, q) == ExternalSource(d, q)
    requires LoadExternalSource(d, q).Ok? ==> SameFile(d, e, LoadExternalSource(d, q).value.fileName)
    ensures var s := ExternalSource(d, q).value;
      && s.chunkSize == CHUNK_SIZE && RevisionMatches(s, d.files) && RevisionMatches(s, e.files)
      && ExternalData(c, e, s) == ExternalData(c, d, s)
  {
    hide LoadExternalSource, Verified;
    LoadedSourcesAreValid(d, q);
    LoadedSourcesAreValid(e, q);
    SourceIsLoaded(d, q);
  }

  lemma SourceIsLoaded(d: Disk, q: Reference)
    requires ExternalSource(d, q).Ok?
    ensures LoadExternalSource(d, q) == ExternalSource(d, q)
  {
    hide LoadExternalSource;
  }

  predicate SameFile(d: Disk, e: Disk, fileName: string) {
    && (fileName in d.files <==> fileName in e.files)
    && (fileName in d.files ==> d.files[fileName] == e.files[fileName])
  }

  // References to other content read the same before, during and after a move, unless they
  // are kept in the very file the content is moved to.
  lemma MoveLeavesOthers(c: Crypto, d: Disk, r: Reference, fileName: string, f: Faults, q: Reference, i: nat)
    requires q.blobId != r.blobId && i < |Move(c, d, r, fileName, f).states|
    requires LoadExternalSource(d, q).Ok? ==> LoadExternalSource(d, q).value.fileName != fileName
    ensures Data(c, Move(c, d, r, fileName, f).states[i], q) == Data(c, d, q)
  {
    hide Data, LoadExternalSource, Move, OnlyMoved;
    MoveTouchesOnly(c, d, r, fileName, f, i);
    OthersAgree(d, Move(c, d, r, fileName, f).states[i], r.blobId, fileName, q);
    DataDependsOn(c, d, Move(c, d, r, fileName, f).states[i], q);
  }

  predicate OnlyMoved(d: Disk, e: Disk, blobId: Bytes, fileName: string) {
    && e.byId == d.byId
    && e.blobs - {blobId} == d.blobs - {blobId}
    && e.byContent - {blobId} == d.byContent - {blobId}
    && e.files - {fileName} == d.files - {fileName}
  }

  lemma MoveTouchesOnly(c: Crypto, d: Disk, r: Reference, fileName: string, f: Faults, i: nat)
    requires i < |Move(c, d, r, fileName, f).states|
    ensures OnlyMoved(d, Move(c, d, r, fileName, f).states[i], r.blobId, fileName)
  {
    hide CopyOut, Relocate, OnlyMoved, Saved;
    NothingMoved(d, r.blobId, fileName);
    forall file ensures OnlyMoved(d, Saved(d, fileName, file), r.blobId, fileName) {
      SavedTouches(d, fileName, file, r.blobId);
    }
    if i >= 2 {
      var content := CopyOut(c, r.blobId, d.blobs[r.blobId], 0).value;
      var file := SavedFile(content, f);
      RelocateTouchesOnly(c, d, Saved(d, fileName, file), r, fileName, file, f, i - 2);
    }
  }

  lemma NothingMoved(d: Disk, blobId: Bytes, fileName: string)
    ensures OnlyMoved(d, d, blobId, fileName)
  {
  }

  lemma SavedTouches(d: Disk, fileName: string, file: File, blobId: Bytes)
    ensures OnlyMoved(d, Saved(d, fileName, file), blobId, fileName)
  {
    assert d.files[fileName := file] - {fileName} == d.files - {fileName};
  }

  lemma RelocateTouchesOnly(c: Crypto, d: Disk, saved: Disk, r: Reference, fileName: string, file: File, f: Faults, i: nat)
    requires OnlyMoved(d, saved, r.blobId, fileName) && i < |Relocate(c, saved, r, fileName, file, f).states|
    ensures OnlyMoved(d, Relocate(c, saved, r, fileName, file, f).states[i], r.blobId, fileName)
  {
    hide LocatorFor, OnlyMoved, Located, Removed;
    if i >= 1 {
      LocatedTouches(d, saved, r.blobId, LocatorFor(c, fileName, file), fileName);
    }
  }

  lemma LocatedTouches(d: Disk, e: Disk, blobId: Bytes, s: Source, fileName: string)
    requires OnlyMoved(d, e, blobId, fileName)
    ensures OnlyMoved(d, Located(e, blobId, s), blobId, fileName)
    ensures OnlyMoved(d, Removed(Located(e, blobId, s), blobId), blobId, fileName)
  {
    assert e.byContent[blobId := Some(s)] - {blobId} == e.byContent - {blobId};
    assert e.blobs - {blobId} - {blobId} == e.blobs - {blobId};
  }

  lemma OthersAgree(d: Disk, e: Disk, blobId: Bytes, fileName: string, q: Reference)
    requires OnlyMoved(d, e, blobId, fileName) && q.blobId != blobId
    ensures e.byId == d.byId
    ensures q.blobId in e.blobs <==> q.blobId in d.blobs
    ensures q.blobId in d.blobs ==> e.blobs[q.blobId] == d.blobs[q.blobId]
    ensures q.blobId in e.byContent <==> q.blobId in d.byContent
    ensures q.blobId in d.byContent ==> e.byContent[q.blobId] == d.byContent[q.blobId]
    ensures forall name :: name != fileName ==> SameFile(d, e, name)
  {
    assert q.blobId in e.blobs <==> q.blobId in e.blobs - {blobId};
    assert q.blobId in d.blobs <==> q.blobId in d.blobs - {blobId};
    assert q.blobId in e.byContent <==> q.blobId in e.byContent - {blobId};
    assert q.blobId in d.byContent <==> q.blobId in d.byContent - {blobId};
    forall name | name != fileName ensures SameFile(d, e, name) {
      assert name in e.files <==> name in e.files - {fileName};
      assert name in d.files <==> name in d.files - {fileName};
    }
  }

  // What a locator of its own must be for a reference to read `plain` through it: it decodes to a
  // source of the reference's size and compatible identity and checksum, whose file is unmodified,
  // holds `plain`, and agrees with the fingerprint, if one was recorded.
  predicate OwnLocatorReads(c: Crypto, d: Disk, q: Reference, plain: Bytes)
    requires q.id in d.byId
  {
    && q.IsValid() && d.byId[q.id].Some?
    && var s := d.byId[q.id].value;
    && ValidSource(s) && s.size == q.size
    && (q.blobId == [] || s.blobId == [] || s.blobId == q.blobId)
    && (q.checksum == [] || s.checksum == [] || s.checksum == q.checksum)
    && RevisionMatches(s, d.files) && d.files[s.fileName].content == plain && Verified(c, s, plain)
  }

  // A move does not redirect a reference that has its own locator: afterwards it reads the content
  // if and only if that locator leads to it on the disk as it was before, with the saved file
  // added. A locator of another file than the one saved leads where it led before.
  lemma OwnLocatorDecidesAfterMove(c: Crypto, d: Disk, r: Reference, fileName: string, f: Faults, plain: Bytes, q: Reference)
    requires Move(c, d, r, fileName, f).result.Ok? && q.blobId == r.blobId && q.id in d.byId
    ensures r.blobId in d.blobs && CopyOut(c, r.blobId, d.blobs[r.blobId], 0).Ok?
    ensures var states := Move(c, d, r, fileName, f).states;
      var file := SavedFile(CopyOut(c, r.blobId, d.blobs[r.blobId], 0).value, f);
      var found := Data(c, states[|states| - 1], q) == Ok(plain);
      && (found <==> OwnLocatorReads(c, Saved(d, fileName, file), q, plain))
      && (d.byId[q.id].Some? && d.byId[q.id].value.fileName != fileName ==> (found <==> OwnLocatorReads(c, d, q, plain)))
  {
    hide CopyOut, LocatorFor, ValidSource, Verified, Data, OwnLocatorReads;
    var states := Move(c, d, r, fileName, f).states;
    var e := states[|states| - 1];
    var file := SavedFile(CopyOut(c, r.blobId, d.blobs[r.blobId], 0).value, f);
    MoveEnds(c, d, r, fileName, f);
    WithoutBlob(c, e, q, plain);
    SameLocatorReads(c, Saved(d, fileName, file), e, q, plain);
    SameLocatorReads(c, d, e, q, plain);
  }

  // What a successful move leaves: the saved file is added, the encrypted copy gone, and locators by
  // id are as before.
  lemma MoveEnds(c: Crypto, d: Disk, r: Reference, fileName: string, f: Faults)
    requires Move(c, d, r, fileName, f).result.Ok?
    ensures r.blobId in d.blobs && CopyOut(c, r.blobId, d.blobs[r.blobId], 0).Ok?
    ensures var states := Move(c, d, r, fileName, f).states;
      var e := states[|states| - 1];
      var file := SavedFile(CopyOut(c, r.blobId, d.blobs[r.blobId], 0).value, f);
      e.files == d.files[fileName := file] && e.byId == d.byId && r.blobId !in e.blobs
  {
    hide CopyOut, LocatorFor;
  }

  lemma SameLocatorReads(c: Crypto, d: Disk, e: Disk, q: Reference, plain: Bytes)
    requires q.id in d.byId && e.byId == d.byId
    ensures e.files == d.files || (d.byId[q.id].Some? && SameFile(d, e, d.byId[q.id].value.fileName)) ==>
      (OwnLocatorReads(c, e, q, plain) <==> OwnLocatorReads(c, d, q, plain))
  {
    hide ValidSource, Verified;
  }

  lemma WithoutBlob(c: Crypto, e: Disk, q: Reference, plain: Bytes)
    requires q.id in e.byId && q.blobId !in e.blobs
    ensures Data(c, e, q) == Ok(plain) <==> OwnLocatorReads(c, e, q, plain)
  {
    hide ChunksMatch, HasFingerprint, ManagedData;
  }

  // For instance, if that locator names a file that does not exist, the reference reads its
  // content before the move and not after it.
  lemma StaleLocatorHidesMovedContent(c: Crypto, d: Disk, r: Reference, fileName: string, f: Faults, plain: Bytes,
                                      q: Reference)
    requires HashSizes(c) && CollisionFree(c, plain) && |plain| <= MAX_INT64
    requires r.blobId == c.mac(plain) && r.blobId in d.blobs && Stored(c, r.blobId, plain, d.blobs[r.blobId])
    requires Move(c, d, r, fileName, f).result.Ok? && q.blobId == r.blobId && q.id != 0
    requires q.id in d.byId && d.byId[q.id].Some?
    requires d.byId[q.id].value.fileName !in d.files && d.byId[q.id].value.fileName != fileName
    ensures Data(c, d, q) == Ok(plain)
    ensures var states := Move(c, d, r, fileName, f).states;
      Data(c, states[|states| - 1], q).Err?
  {
    hide Stored, Data, Move, CopyOut, HashSizes, CollisionFree;
    HashIsNotEmpty(c, plain);
    BlobIsRead(c, d, q, plain);
    MoveEnds(c, d, r, fileName, f);
    var states := Move(c, d, r, fileName, f).states;
    MissingFileIsError(c, states[|states| - 1], q);
  }

  lemma MissingFileIsError(c: Crypto, e: Disk, q: Reference)
    requires q.blobId !in e.blobs && q.id != 0 && q.id in e.byId && e.byId[q.id].Some?
    requires e.byId[q.id].value.fileName !in e.files
    ensures Data(c, e, q).Err?
  {
    hide ManagedData, ValidSource, Verified;
  }

  // ---- The store ----

  class LocalMediaStore {
    const crypto: Crypto
    var disk: Disk
    // Every state the disk has been in.
    ghost var history: seq<Disk>

    constructor (crypto: Crypto, disk: Disk)
      ensures this.crypto == crypto && this.disk == disk && history == [disk]
    {
      this.crypto := crypto;
      this.disk := disk;
      history := [disk];
    }

    method CopyToFile(blobId: Bytes) returns (output: Result<Bytes>)
      requires blobId in disk.blobs
      ensures output == CopyOut(crypto, blobId, disk.blobs[blobId], 0)
    {
      hide ReadRange;
      var file := disk.blobs[blobId];
      var written: Bytes, offset: nat, totalSize := [], 0, -1;
      PrependNothing(CopyOut(crypto, blobId, file, 0));
      while totalSize < 0 || offset < totalSize
        invariant totalSize < 0 || offset < totalSize ==>
          CopyOut(crypto, blobId, file, 0) == Prepend(written, CopyOut(crypto, blobId, file, offset))
        invariant 0 <= totalSize <= offset ==> CopyOut(crypto, blobId, file, 0) == Ok(written)
        invariant totalSize <= MAX_INT64
        decreases totalSize < 0, MAX_INT64 - offset, offset < totalSize
      {
        var range := ReadManagedRange(crypto.g, blobId, file, offset, CHUNK_SIZE);
        if range.value.Err? {
          return Err(range.value.error);
        }
        totalSize := range.totalSize;
        if range.value.value == [] && offset < totalSize {
          return Err("The encrypted media ended unexpectedly");
        }
        TotalFits(crypto.g, blobId, file, offset, CHUNK_SIZE);
        TotalIsSize(crypto.g, blobId, file, offset, CHUNK_SIZE);
        ghost var next := offset + |range.value.value|;
        if next < totalSize {
          PrependAppend(written, range.value.value, CopyOut(crypto, blobId, file, next));
        }
        written := written + range.value.value;
        offset := offset + |range.value.value|;
      }
      output := Ok(written);
    }

    method MoveToFile(r: Reference, fileName: string, f: Faults) returns (result: Result<Reference>)
      modifies this
      ensures var run := Move(crypto, old(disk), r, fileName, f);
        result == run.result && disk == run.states[|run.states| - 1] && history == old(history) + run.states[1..]
    {
      hide CopyOut, Relocate;
      if !r.IsValid() || r.blobId == [] || r.blobId !in disk.blobs {
        return Err("The media is not in encrypted storage");
      }
      if !f.keyAvailable || !f.opens {
        return Err("The key or the file is not available");
      }
      var content := CopyToFile(r.blobId);
      if content.Err? {
        return Err(content.error);
      }
      if !f.commits {
        return Err("The file could not be saved");
      }
      Store(Saved(disk, fileName, File(content.value, f.modified)));
      // Until the file is read again, others may replace it.
      var file := SavedFile(content.value, f);
      Store(Saved(disk, fileName, file));
      assert disk == Saved(old(disk), fileName, file);
      ghost var before := history;
      ghost var rest := Relocate(crypto, disk, r, fileName, file, f);
      result := RelocateTo(r, fileName, file, f);
      assert before == old(history) + [Saved(old(disk), fileName, File(content.value, f.modified)), rest.states[0]];
    }

    method RelocateTo(r: Reference, fileName: string, file: File, f: Faults) returns (result: Result<Reference>)
      modifies this
      ensures var run := Relocate(crypto, old(disk), r, fileName, file, f);
        result == run.result && disk == run.states[|run.states| - 1] && history == old(history) + run.states[1..]
    {
      hide LocatorFor, ChunkHashes, ChunkCount;
      if !f.reopens || |file.content| > MAX_INT64 {
        return Err("The saved file does not match the encrypted media");
      }
      var blobId, checksum, size, chunkHashes := FingerprintDevice(crypto, file.content);
      if blobId != r.blobId || (r.checksum != [] && checksum != r.checksum) {
        return Err("The saved file does not match the encrypted media");
      }
      var source := Source(fileName, size, file.modified, blobId, checksum, CHUNK_SIZE, chunkHashes);
      LocatorIs(crypto, fileName, file, source);
      if !f.locatorWritten {
        return Err("The locator could not be written");
      }
      Store(Located(disk, r.blobId, source));
      if !f.removed {
        return Err("The file was saved, but its encrypted copy could not be removed");
      }
      Store(Removed(disk, r.blobId));
      result := Ok(r);
    }

    // One atomic change of the disk.
    method Store(d: Disk)
      modifies this
      ensures disk == d && history == old(history) + [d]
    {
      disk := d;
      history := history + [d];
    }
  }

  lemma TotalIsSize(g: Gcm, blobId: Bytes, file: Bytes, offset: int, maxSize: int)
    requires ReadRange(g, blobId, file, offset, maxSize).value.Ok?
    ensures 0 <= ReadRange(g, blobId, file, offset, maxSize).totalSize
  {
    hide ReadHeader, Collect;
  }

  lemma LocatorIs(c: Crypto, fileName: string, file: File, s: Source)
    requires |file.content| <= MAX_INT64
    requires s == Source(fileName, |file.content|, file.modified, c.mac(file.content), c.sha(file.content), CHUNK_SIZE,
                         ChunkHashes(c.sha, file.content))
    ensures s == LocatorFor(c, fileName, file)
  {
  }
}
