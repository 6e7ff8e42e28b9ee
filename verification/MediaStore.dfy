// The local media store: where the bytes of a reference are found, and moving content out of
// encrypted storage into a plain file.
module MediaStore {
  import opened Basics
  import opened Envelope
  import opened ManagedBlob

  // The keyed content hash, the plain checksum hash and the record encryption of one profile.
  datatype Crypto = Crypto(g: Gcm, mac: Bytes -> Bytes, sha: Bytes -> Bytes)

  ghost predicate HashSizes(c: Crypto) {
    forall b: Bytes :: |c.mac(b)| == 32 && |c.sha(b)| == 32
  }

  // No other byte string shares the content id of `plain`.
  ghost predicate CollisionFree(c: Crypto, plain: Bytes) {
    forall b: Bytes :: c.mac(b) == c.mac(plain) ==> b == plain
  }

  // An attachment id is null exactly if it is 0.
  datatype Reference = Reference(id: nat, blobId: Bytes, portableName: string, size: Int64, checksum: Bytes) {
    predicate IsValid() {
      id != 0 && portableName != ""
    }
  }

  datatype Source = Source(fileName: string, size: Int64, modified: int, blobId: Bytes, checksum: Bytes, chunkSize: nat,
                           chunkHashes: seq<Bytes>)

  predicate HasFingerprint(s: Source) {
    |s.blobId| == 32 && |s.checksum| == 32 && s.chunkSize > 0 && s.size >= 0
    && |s.chunkHashes| == (if s.size == 0 then 0 else (s.size + s.chunkSize - 1) / s.chunkSize)
  }

  // What deserializeExternalSource lets through.
  predicate ValidSource(s: Source) {
    && s.fileName != "" && s.size >= 0 && s.chunkSize == CHUNK_SIZE
    && (if s.blobId == [] && s.checksum == [] && s.chunkHashes == [] then true
        else HasFingerprint(s) && forall i :: 0 <= i < |s.chunkHashes| ==> |s.chunkHashes[i]| == 32)
  }

  datatype File = File(content: Bytes, modified: int)

  // Locators are stored sealed; None is one that does not open or decode.
  datatype Disk = Disk(blobs: map<Bytes, Bytes>, files: map<string, File>, byId: map<nat, Option<Source>>,
                       byContent: map<Bytes, Option<Source>>)

  predicate RevisionMatches(s: Source, files: map<string, File>) {
    s.fileName in files && |files[s.fileName].content| == s.size && files[s.fileName].modified == s.modified
  }

  // ---- Locating and reading ----

  function LoadExternalSource(d: Disk, r: Reference): Result<Source> {
    if r.id != 0 && r.id in d.byId then
      match d.byId[r.id]
      case None => Err("Invalid external media source metadata")
      case Some(s) => if ValidSource(s) then Ok(s) else Err("Invalid external media source metadata")
    else if r.blobId == [] || r.blobId !in d.byContent then Err("External media source metadata is unavailable")
    else
      match d.byContent[r.blobId]
      case None => Err("Invalid external media source metadata")
      case Some(s) =>
        if !ValidSource(s) then Err("Invalid external media source metadata")
        else Ok(if s.blobId == [] then s.(blobId := r.blobId) else s)
  }

  function ExternalSource(d: Disk, r: Reference): Result<Source> {
    if !r.IsValid() || r.size < 0 then Err("Invalid media reference")
    else
      match LoadExternalSource(d, r)
      case Err(e) => Err(e)
      case Ok(s) =>
        if s.size != r.size then Err("External media source does not match its reference")
        else if r.blobId != [] && s.blobId != [] && s.blobId != r.blobId then
          Err("External media source identity does not match its reference")
        else if r.checksum != [] && s.checksum != [] && s.checksum != r.checksum then
          Err("External media source checksum does not match its reference")
        else if s.fileName !in d.files then Err("The external media source is no longer available")
        else if !RevisionMatches(s, d.files) then Err("The external media source changed since it was linked")
        else Ok(s)
  }

  // A valid source names a file and a size, and has either no fingerprint at all or a whole one: an
  // identity, a checksum and one hash for each chunk of 1 MiB, all of 32 bytes.
  lemma ValidSourceMeans(s: Source)
    ensures ValidSource(s)
      <==> s.fileName != "" && s.size >= 0 && s.chunkSize == 1048576
           && ((s.blobId == [] && s.checksum == [] && s.chunkHashes == [])
               || (|s.blobId| == 32 && |s.checksum| == 32 && (forall h :: h in s.chunkHashes ==> |h| == 32)
                   && (|s.chunkHashes| - 1) * 1048576 < s.size <= |s.chunkHashes| * 1048576))
  {
    assert forall i :: 0 <= i < |s.chunkHashes| ==> s.chunkHashes[i] in s.chunkHashes;
  }

  // The locator a reference is found by: its own if there is one, otherwise that of its content.
  predicate IsLocatorOf(d: Disk, r: Reference, s: Source) {
    if r.id in d.byId then d.byId[r.id] == Some(s)
    else r.blobId != [] && r.blobId in d.byContent && d.byContent[r.blobId] == Some(s)
  }

  // Equal, or not known to both.
  predicate Agree(a: Bytes, b: Bytes) {
    a == [] || b == [] || a == b
  }

  // A source is found for a reference if and only if the reference is valid, the locator it is found by is
  // a valid source of its size that does not contradict its identity or checksum, and the file is there
  // with the recorded size and time. It is then that source; found by content, it has that content's identity.
  lemma SourceIsFoundIff(d: Disk, r: Reference, s: Source)
    requires IsLocatorOf(d, r, s)
    ensures ExternalSource(d, r).Ok?
      <==> r.id != 0 && r.portableName != "" && r.size >= 0 && ValidSource(s) && s.size == r.size
           && Agree(s.blobId, r.blobId) && Agree(s.checksum, r.checksum)
           && s.fileName in d.files && |d.files[s.fileName].content| == r.size && d.files[s.fileName].modified == s.modified
    ensures ExternalSource(d, r).Ok? ==>
      ExternalSource(d, r).value == s.(blobId := if r.id in d.byId then s.blobId else r.blobId)
  {
    hide ValidSource;
  }

  lemma SourceHasLocator(d: Disk, r: Reference)
    requires ExternalSource(d, r).Ok?
    ensures exists s :: IsLocatorOf(d, r, s)
  {
    hide ValidSource;
    if r.id in d.byId {
      assert IsLocatorOf(d, r, d.byId[r.id].value);
    } else {
      assert IsLocatorOf(d, r, d.byContent[r.blobId].value);
    }
  }

  // Every chunk from `index` on has the hash recorded for it.
  predicate ChunksMatch(sha: Bytes -> Bytes, s: Source, content: Bytes, index: nat)
    requires HasFingerprint(s) && s.chunkSize == CHUNK_SIZE && |content| == s.size
  {
    forall i :: index <= i < |s.chunkHashes| ==> sha(ChunkOf(content, i)) == s.chunkHashes[i]
  }

  predicate Verified(c: Crypto, s: Source, content: Bytes)
    requires s.chunkSize == CHUNK_SIZE && |content| == s.size
  {
    HasFingerprint(s) ==> ChunksMatch(c.sha, s, content, 0) && c.sha(content) == s.checksum
  }

  // What an external file yields for a source found for a reference.
  function ExternalData(c: Crypto, d: Disk, s: Source): Result<Bytes>
    requires s.chunkSize == CHUNK_SIZE && RevisionMatches(s, d.files)
  {
    var content := d.files[s.fileName].content;
    if Verified(c, s, content) then Ok(content) else Err("The external media source failed its integrity check")
  }

  // The whole content of a managed blob.
  function ManagedData(c: Crypto, blobId: Bytes, file: Bytes): Result<Bytes> {
    var probe := ReadRange(c.g, blobId, file, 0, 0);
    if probe.value.Err? then probe.value else ReadRange(c.g, blobId, file, 0, probe.totalSize).value
  }

  // LocalMediaStore::data(reference): encrypted storage has precedence.
  function Data(c: Crypto, d: Disk, r: Reference): Result<Bytes> {
    if r.blobId != [] && r.blobId in d.blobs then ManagedData(c, r.blobId, d.blobs[r.blobId])
    else
      match ExternalSource(d, r)
      case Err(e) => Err(e)
      case Ok(s) => if s.chunkSize != CHUNK_SIZE then Err("Invalid external media source metadata") else ExternalData(c, d, s)
  }

  lemma LoadedSourcesAreValid(d: Disk, r: Reference)
    requires ExternalSource(d, r).Ok?
    ensures ExternalSource(d, r).value.chunkSize == CHUNK_SIZE && RevisionMatches(ExternalSource(d, r).value, d.files)
  {
  }

  // The loop of data(): chunk by chunk, each hashed as it is read, then the whole.
  method ReadExternal(c: Crypto, d: Disk, s: Source) returns (r: Result<Bytes>)
    requires s.chunkSize == CHUNK_SIZE && RevisionMatches(s, d.files)
    ensures r.Ok? <==> ExternalData(c, d, s).Ok?
    ensures r.Ok? ==> r == ExternalData(c, d, s)
  {
    var content := d.files[s.fileName].content;
    var result: Bytes := [];
    var index, total := 0, 0;
    while total < s.size
      invariant 0 <= index && 0 <= total <= s.size && result == content[..total]
      invariant total == Min(index * CHUNK_SIZE, s.size)
      invariant HasFingerprint(s) ==>
        forall i :: 0 <= i < index && i < |s.chunkHashes| ==> c.sha(ChunkOf(content, i)) == s.chunkHashes[i]
    {
      var expected := Min(CHUNK_SIZE, s.size - total);
      var chunk := content[total..total + expected];
      assert chunk == ChunkOf(content, index);
      assert HasFingerprint(s) ==> index < |s.chunkHashes|;
      if HasFingerprint(s) && c.sha(chunk) != s.chunkHashes[index] {
        return Err("The external media source changed since it was fingerprinted");
      }
      result := result + chunk;
      total := total + |chunk|;
      index := index + 1;
    }
    assert result == content;
    assert HasFingerprint(s) ==> |s.chunkHashes| <= index;
    if HasFingerprint(s) && c.sha(result) != s.checksum {
      return Err("The external media source failed its integrity check");
    }
    r := Ok(result);
  }

  // ---- Fingerprints ----

  function ChunkHashes(sha: Bytes -> Bytes, content: Bytes): (h: seq<Bytes>)
    ensures |h| == ChunkCount(|content|)
    ensures forall i :: 0 <= i < |h| ==> h[i] == sha(ChunkOf(content, i))
  {
    seq(ChunkCount(|content|), i requires 0 <= i < ChunkCount(|content|) => sha(ChunkOf(content, i)))
  }

  // fingerprintDevice: what is computed from reading a device to its end.
  method FingerprintDevice(c: Crypto, device: Bytes)
    returns (blobId: Bytes, checksum: Bytes, size: nat, chunkHashes: seq<Bytes>)
    ensures blobId == c.mac(device) && checksum == c.sha(device) && size == |device|
    ensures chunkHashes == ChunkHashes(c.sha, device)
  {
    var cursor, hashed: Bytes := 0, [];
    chunkHashes := [];
    while cursor < |device|
      invariant 0 <= cursor <= |device| && hashed == device[..cursor]
      invariant cursor == Min(|chunkHashes| * CHUNK_SIZE, |device|)
      invariant |chunkHashes| <= ChunkCount(|device|)
      invariant forall i :: 0 <= i < |chunkHashes| ==> chunkHashes[i] == c.sha(ChunkOf(device, i))
    {
      var chunk := device[cursor..Min(cursor + CHUNK_SIZE, |device|)];
      assert |chunkHashes| < ChunkCount(|device|);
      assert chunk == ChunkOf(device, |chunkHashes|);
      hashed := hashed + chunk;
      chunkHashes := chunkHashes + [c.sha(chunk)];
      cursor := cursor + |chunk|;
    }
    assert hashed == device;
    blobId, checksum, size := c.mac(hashed), c.sha(hashed), cursor;
  }
}
