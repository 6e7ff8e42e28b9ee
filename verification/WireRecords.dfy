// Encrypted records of the portable chunk representation and the wire object they make up.
module WireRecords {
  import opened Basics
  import opened Encoding
  import opened Envelope
  import opened Wire

  const WIRE_VERSION := 1

  // ---- Nonces and contexts ----

  // The value without its low k bytes.
  function Shifted(value: nat, k: nat): nat {
    DivisionBounds(value, Pow256(k));
    value / Pow256(k)
  }

  // appendU64: most significant byte first.
  method AppendU64(out: Bytes, value: UInt64) returns (r: Bytes)
    ensures r == out + Be(value, 8)
  {
    hide Shifted, Be;
    r := out;
    var shift := 8;
    ShiftedOut(value);
    while shift > 0
      invariant 0 <= shift <= 8
      invariant r == out + Be(Shifted(value, shift), 8 - shift)
    {
      NextByte(value, shift);
      shift := shift - 1;
      r := r + [Shifted(value, shift) % 256];
    }
  }

  lemma ShiftedOut(value: UInt64)
    ensures Shifted(value, 0) == value && Shifted(value, 8) == 0 && Be(0, 0) == []
  {
    Powers();
  }

  lemma NextByte(value: nat, shift: nat)
    requires 0 < shift <= 8
    ensures Be(Shifted(value, shift - 1), 9 - shift) == Be(Shifted(value, shift), 8 - shift) + [Shifted(value, shift - 1) % 256]
  {
    DropOne(value, shift);
  }

  lemma DropOne(value: nat, shift: nat)
    requires shift > 0
    ensures value / Pow256(shift - 1) / 256 == value / Pow256(shift)
  {
    var p := Pow256(shift - 1);
    DivisionBounds(value, p);
    DivisionBounds(value / p, 256);
    var q := value / p / 256;
    assert q * 256 * p == q * (256 * p);
    Scale(q * 256, value / p, p);
    Scale(value / p, q * 256 + 255, p);
    assert (q * 256 + 255) * p == q * (256 * p) + 255 * p;
    QuotientUnique(value, 256 * p, q);
  }

  function Nonce(p: Parameters, index: UInt64): Bytes {
    p.noncePrefix + Be(index, 8)
  }

  function WireContext(p: Parameters, index: UInt64, actualPlainSize: UInt32): Bytes {
    [65, 75, 87, 67] + Be(WIRE_VERSION, 2) + Be(0, 2) + p.plainChecksum + Be(p.plainSize, 8) + Be(p.chunkSize, 4)
      + Be(index, 8) + Be(actualPlainSize, 4)
  }

  // A nonce is 12 bytes long and no two chunks of one object share it.
  lemma NoncesDiffer(p: Parameters, i: UInt64, j: UInt64)
    requires IsValid(p)
    ensures |Nonce(p, i)| == NONCE_SIZE
    ensures Nonce(p, i) == Nonce(p, j) ==> i == j
  {
    hide Be;
    Powers();
    if Nonce(p, i) == Nonce(p, j) {
      CommonPrefix(p.noncePrefix, Be(i, 8), Be(j, 8));
      BeInjective(i, j, 8);
    }
  }

  // A context is exactly 64 bytes long, and tells the object, the geometry and the index apart.
  lemma ContextsDiffer(p: Parameters, i: UInt64, m: UInt32, q: Parameters, j: UInt64, n: UInt32)
    requires IsValid(p) && IsValid(q)
    ensures |WireContext(p, i, m)| == CONTEXT_SIZE
    ensures WireContext(p, i, m) == WireContext(q, j, n) ==>
      p.plainChecksum == q.plainChecksum && p.plainSize == q.plainSize && p.chunkSize == q.chunkSize && i == j && m == n
  {
    hide Be;
    Powers();
    var a, b := WireContext(p, i, m), WireContext(q, j, n);
    assert a[8..40] == p.plainChecksum && b[8..40] == q.plainChecksum;
    assert a[40..48] == Be(p.plainSize, 8) && b[40..48] == Be(q.plainSize, 8);
    assert a[48..52] == Be(p.chunkSize, 4) && b[48..52] == Be(q.chunkSize, 4);
    assert a[52..60] == Be(i, 8) && b[52..60] == Be(j, 8);
    assert a[60..64] == Be(m, 4) && b[60..64] == Be(n, 4);
    if a == b {
      BeInjective(p.plainSize, q.plainSize, 8);
      BeInjective(p.chunkSize, q.chunkSize, 4);
      BeInjective(i, j, 8);
      BeInjective(m, n, 4);
    }
  }

  // ---- Records ----

  function EncryptChunk(g: Gcm, p: Parameters, index: UInt64, plainChunk: Bytes): Result<Bytes> {
    match PlainChunkSize(p, index)
    case None => Err("Invalid media wire chunk index or parameters")
    case Some(expected) =>
      if |plainChunk| != expected then Err("Plain media chunk has an unexpected size")
      else if |WireContext(p, index, expected)| != CONTEXT_SIZE then Err("Invalid media wire authentication context")
      else
        var authenticated := WireContext(p, index, expected) + plainChunk;
        match g.encrypt(authenticated, Nonce(p, index))
        case None => Err("Could not encrypt media chunk")
        case Some(c) =>
          if |c.text| != |authenticated| || |c.tag| != TAG_SIZE then Err("Encrypted media chunk has an unexpected size")
          else Ok(c.text + c.tag)
  }

  function DecryptChunk(g: Gcm, p: Parameters, index: UInt64, wireChunk: Bytes): Result<Bytes> {
    match PlainChunkSize(p, index)
    case None => Err("Invalid media wire chunk index or parameters")
    case Some(expected) =>
      if |wireChunk| != expected + OVERHEAD then Err("Encrypted media chunk has an unexpected size")
      else
        match g.decrypt(SplitRecord(wireChunk), Nonce(p, index))
        case None => Err("Could not decrypt media chunk")
        case Some(decrypted) =>
          if |decrypted| != CONTEXT_SIZE + expected then Err("Decrypted media chunk has an unexpected size")
          else if decrypted[..CONTEXT_SIZE] != WireContext(p, index, expected) then
            Err("Media chunk authentication context mismatch")
          else Ok(decrypted[CONTEXT_SIZE..])
  }

  function SplitRecord(wireChunk: Bytes): Ciphertext
    requires |wireChunk| >= TAG_SIZE
  {
    Ciphertext(wireChunk[..|wireChunk| - TAG_SIZE], wireChunk[|wireChunk| - TAG_SIZE..])
  }

  // A record has the size the geometry says, and decrypts to the chunk it was made from.
  lemma DecryptInvertsEncrypt(g: Gcm, p: Parameters, index: UInt64, plainChunk: Bytes)
    requires Lawful(g) && EncryptChunk(g, p, index, plainChunk).Ok?
    ensures WireChunkSize(p, index) == Some(|EncryptChunk(g, p, index, plainChunk).value|)
    ensures DecryptChunk(g, p, index, EncryptChunk(g, p, index, plainChunk).value) == Ok(plainChunk)
  {
    hide PlainChunkSize, WireContext, Nonce, WireChunkSize;
    var expected := PlainChunkSize(p, index).value;
    var context := WireContext(p, index, expected);
    RecordSize(p, index);
    assert Inverts(g, context + plainChunk, Nonce(p, index));
    var c := g.encrypt(context + plainChunk, Nonce(p, index)).value;
    assert SplitRecord(c.text + c.tag) == c;
    assert (context + plainChunk)[..CONTEXT_SIZE] == context && (context + plainChunk)[CONTEXT_SIZE..] == plainChunk;
  }

  lemma RecordSize(p: Parameters, index: UInt64)
    requires PlainChunkSize(p, index).Some?
    ensures WireChunkSize(p, index) == Some(PlainChunkSize(p, index).value + OVERHEAD)
  {
    hide PlainChunkSize;
  }

  // Encryption as such never fails for a chunk of the right size.
  lemma EncryptSucceeds(g: Gcm, p: Parameters, index: UInt64, plainChunk: Bytes)
    requires Lawful(g) && IsValid(p) && index < ChunkCount(p) && |plainChunk| == SizeOf(p.plainSize, p.chunkSize, index)
    ensures EncryptChunk(g, p, index, plainChunk).Ok?
            <==> g.encrypt(WireContext(p, index, |plainChunk|) + plainChunk, Nonce(p, index)).Some?
  {
    hide PlainChunkSize, Nonce, ChunkCount;
    SizesAreExact(p, index);
    ContextsDiffer(p, index, |plainChunk|, p, index, |plainChunk|);
    assert Inverts(g, WireContext(p, index, |plainChunk|) + plainChunk, Nonce(p, index));
  }

  // Whatever is decrypted was sealed for this object, this geometry and this index: bytes that
  // open but were made for another chunk are refused.
  lemma OtherChunksAreRefused(g: Gcm, p: Parameters, i: UInt64, wireChunk: Bytes,
                              q: Parameters, j: UInt64, n: UInt32, content: Bytes)
    requires IsValid(p) && IsValid(q) && |wireChunk| >= TAG_SIZE
    requires g.decrypt(SplitRecord(wireChunk), Nonce(p, i)) == Some(WireContext(q, j, n) + content)
    requires (p.plainChecksum, p.plainSize, p.chunkSize, i) != (q.plainChecksum, q.plainSize, q.chunkSize, j)
    ensures DecryptChunk(g, p, i, wireChunk).Err?
  {
    hide PlainChunkSize, WireContext, Nonce;
    if PlainChunkSize(p, i).Some? {
      ContextsDiffer(p, i, PlainChunkSize(p, i).value, q, j, n);
      ContextsDiffer(q, j, n, q, j, n);
      assert (WireContext(q, j, n) + content)[..CONTEXT_SIZE] == WireContext(q, j, n);
    }
  }

  // ---- The wire object ----

  datatype Object = Object(g: Gcm, p: Parameters, plain: Bytes)

  predicate ObjectValid(o: Object) {
    WireSize(o.p).Some? && |o.plain| == o.p.plainSize
  }

  function PlainChunk(o: Object, index: UInt64): (chunk: Bytes)
    requires ObjectValid(o) && index < ChunkCount(o.p)
    ensures |chunk| == SizeOf(o.p.plainSize, o.p.chunkSize, index)
  {
    hide ChunkCount, SizeOf, WireSize;
    SizeIsPositive(o.p, index);
    WireSizeIsExact(o.p);
    SizesAreExact(o.p, index);
    o.plain[index * o.p.chunkSize..index * o.p.chunkSize + SizeOf(o.p.plainSize, o.p.chunkSize, index)]
  }

  function Record(o: Object, index: UInt64): Result<Bytes>
    requires ObjectValid(o) && index < ChunkCount(o.p)
  {
    EncryptChunk(o.g, o.p, index, PlainChunk(o, index))
  }

  predicate AllEncrypt(o: Object)
    requires ObjectValid(o)
  {
    forall i: UInt64 :: i < ChunkCount(o.p) ==> Record(o, i).Ok?
  }

  // The concatenation of the first n records.
  function Concatenation(o: Object, n: nat): Bytes
    requires ObjectValid(o) && AllEncrypt(o) && n <= ChunkCount(o.p)
  {
    if n == 0 then [] else Concatenation(o, n - 1) + Record(o, n - 1).value
  }

  function WireObject(o: Object): Bytes
    requires ObjectValid(o) && AllEncrypt(o)
  {
    Concatenation(o, ChunkCount(o.p))
  }

  // The byte at a position, found through the record that covers it.
  function WireByte(o: Object, position: UInt64): Option<Byte>
    requires ObjectValid(o)
  {
    match ChunkIndexForWireOffset(o.p, position)
    case None => None
    case Some(index) =>
      if index >= ChunkCount(o.p) then None
      else
        match Record(o, index)
        case Err(_) => None
        case Ok(record) =>
          var within := position - index * Stride(o.p);
          if 0 <= within < |record| then Some(record[within]) else None
  }

  lemma RecordLength(o: Object, index: UInt64)
    requires ObjectValid(o) && index < ChunkCount(o.p) && Record(o, index).Ok?
    ensures |Record(o, index).value| == SizeOf(o.p.plainSize, o.p.chunkSize, index) + OVERHEAD >= OVERHEAD
  {
    hide PlainChunk, PlainChunkSize, WireContext, Nonce, WireChunkSize, SizeOf, ChunkCount, WireSize;
    WireSizeIsExact(o.p);
    SizesAreExact(o.p, index);
    SizeIsPositive(o.p, index);
  }

  // A byte of record `index` is the byte at its position in the object.
  lemma ByteOfRecord(o: Object, index: UInt64, within: nat, position: UInt64)
    requires ObjectValid(o) && index < ChunkCount(o.p) && Record(o, index).Ok? && within < |Record(o, index).value|
    requires position == index * Stride(o.p) + within
    ensures position < WireSize(o.p).value
    ensures WireByte(o, position) == Some(Record(o, index).value[within])
  {
    hide Record, ChunkCount, WireSize, SizeOf, ChunkIndexForWireOffset;
    RecordLength(o, index);
    RecordEnds(o.p, index);
    IndexIsTheCoveringRecord(o.p, position, index);
  }

  // The concatenation has the computed size, and every byte of it is where the geometry finds
  // it.
  lemma {:induction false} ConcatenationIsAddressed(o: Object, n: nat)
    requires ObjectValid(o) && AllEncrypt(o) && n <= ChunkCount(o.p)
    ensures |Concatenation(o, n)| == SizesUpTo(o.p, n) <= WireSize(o.p).value
    ensures forall k: UInt64 :: k < |Concatenation(o, n)| ==> WireByte(o, k) == Some(Concatenation(o, n)[k])
  {
    hide Record, ChunkCount, WireSize, SizeOf, WireByte, WireChunkSize;
    WireSizeIsExact(o.p);
    SizesSumUp(o.p, n);
    if n > 0 {
      ConcatenationIsAddressed(o, n - 1);
      SizesSumUp(o.p, n - 1);
      var index: UInt64 := n - 1;
      var record, front := Record(o, index).value, Concatenation(o, n - 1);
      RecordLength(o, index);
      SizesAreExact(o.p, index);
      RecordEnds(o.p, index);
      forall k: UInt64 | k < |Concatenation(o, n)| ensures WireByte(o, k) == Some(Concatenation(o, n)[k]) {
        if k >= |front| {
          ByteOfRecord(o, index, k - |front|, k);
        }
      }
    }
  }

  // Bytes that are what the geometry finds, from `start` on, are that slice of the wire object.
  lemma AddressedBytesAreTheSlice(o: Object, start: nat, data: Bytes)
    requires ObjectValid(o) && AllEncrypt(o) && start + |data| <= WireSize(o.p).value
    requires forall k :: 0 <= k < |data| ==> WireByte(o, start + k) == Some(data[k])
    ensures |WireObject(o)| == WireSize(o.p).value && data == WireObject(o)[start..start + |data|]
  {
    hide Record, ChunkCount, WireSize, SizeOf, WireByte, WireChunkSize, Concatenation;
    WireSizeIsExact(o.p);
    SizesSumUp(o.p, ChunkCount(o.p));
    ConcatenationIsAddressed(o, ChunkCount(o.p));
    var slice := WireObject(o)[start..start + |data|];
    forall k | 0 <= k < |data| ensures data[k] == slice[k] {
      var position: UInt64 := start + k;
      assert WireByte(o, position) == Some(WireObject(o)[position]);
    }
  }

  // If every position has a byte then every record encrypts.
  lemma AddressedBytesAreAll(o: Object, data: Bytes)
    requires ObjectValid(o) && |data| == WireSize(o.p).value
    requires forall k :: 0 <= k < |data| ==> WireByte(o, k) == Some(data[k])
    ensures AllEncrypt(o) && data == WireObject(o)
  {
    hide ChunkCount, WireSize, SizeOf, WireChunkSize, Concatenation, ChunkIndexForWireOffset, PlainChunk, EncryptChunk;
    WireSizeIsExact(o.p);
    forall i: UInt64 | i < ChunkCount(o.p) ensures Record(o, i).Ok? {
      RecordEnds(o.p, i);
      SizeIsPositive(o.p, i);
      Scale(0, i, Stride(o.p));
      var position := i * Stride(o.p);
      IndexIsTheCoveringRecord(o.p, position, i);
      assert WireByte(o, position) == Some(data[position]);
    }
    AddressedBytesAreTheSlice(o, 0, data);
    assert WireObject(o)[0..|data|] == WireObject(o);
  }
}
