// The cache of incomplete media: one file for each verified chunk, either sealed locally or kept
// as the provider's own authenticated record, and the running count of verified bytes.
module PartialCache {
  import opened Basics
  import opened Encoding
  import opened Envelope
  import opened Wire

  const MAX_CHUNK := 16 * 1024 * 1024
  const MAX_RECORD_OVERHEAD := 64 * 1024

  datatype Format = VerifiedOpaque | LocallySealed

  // What a cache is set up with; g seals under its master key.
  datatype Config = Config(format: Format, directory: string, identity: string, totalPlainSize: Int64, chunkSize: Int64,
                           masterKey: Bytes, g: Gcm)

  predicate ConfigValid(c: Config) {
    if c.directory == "" then false
    else if c.format == VerifiedOpaque then c.masterKey == []
    else c.identity != "" && |c.masterKey| == MASTER_KEY_SIZE && c.totalPlainSize > 0 && 0 < c.chunkSize <= MAX_CHUNK
  }

  predicate SealedConfig(c: Config) {
    c.format == LocallySealed && ConfigValid(c)
  }

  // ---- Geometry ----

  function ChunkCountOf(c: Config): nat
    requires SealedConfig(c)
  {
    (c.totalPlainSize - 1) / c.chunkSize + 1
  }

  function ExpectedPlainSize(c: Config, index: UInt64): Int64 {
    if !SealedConfig(c) then -1
    else if index >= ChunkCountOf(c) then -1
    else
      hide Wrap;
      PartSizes(c, index);
      var offset := Wrap(index * c.chunkSize);
      Min(c.chunkSize, c.totalPlainSize - offset)
  }

  // In exact arithmetic: how many bytes chunk `index` holds.
  function PartSize(c: Config, index: nat): int {
    Min(c.chunkSize, c.totalPlainSize - index * c.chunkSize)
  }

  lemma PartSizes(c: Config, index: nat)
    requires SealedConfig(c) && index < ChunkCountOf(c)
    ensures 0 <= index * c.chunkSize < c.totalPlainSize && Wrap(index * c.chunkSize) == index * c.chunkSize
    ensures 0 < PartSize(c, index) <= c.chunkSize
    ensures index + 1 < ChunkCountOf(c) ==> PartSize(c, index) == c.chunkSize
    ensures index + 1 == ChunkCountOf(c) ==> index * c.chunkSize + PartSize(c, index) == c.totalPlainSize
    ensures ChunkCountOf(c) <= MAX_INT64
  {
    hide Wrap;
    DivisionBounds(c.totalPlainSize - 1, c.chunkSize);
    ChunkBounds(index, c.chunkSize, c.totalPlainSize, ChunkCountOf(c));
    Scale(index, ChunkCountOf(c) - 1, c.chunkSize);
    WrapIsExact(index * c.chunkSize);
  }

  lemma ExpectedIsPartSize(c: Config, index: UInt64)
    ensures ExpectedPlainSize(c, index) > 0 <==> SealedConfig(c) && index < ChunkCountOf(c)
    ensures SealedConfig(c) && index < ChunkCountOf(c) ==> ExpectedPlainSize(c, index) == PartSize(c, index)
  {
    hide Wrap;
    if SealedConfig(c) && index < ChunkCountOf(c) {
      PartSizes(c, index);
    }
  }

  // ---- Verified bytes ----

  // The bytes in the verified chunks below n.
  function BytesIn(c: Config, verified: set<UInt64>, n: nat): int {
    if n == 0 then 0
    else BytesIn(c, verified, n - 1) + (if n - 1 in verified then PartSize(c, n - 1) else 0)
  }

  lemma {:induction false} BytesAfterInsert(c: Config, verified: set<UInt64>, index: UInt64, n: nat)
    requires index !in verified
    ensures BytesIn(c, verified + {index}, n) == BytesIn(c, verified, n) + (if index < n then PartSize(c, index) else 0)
  {
    hide PartSize;
    if n > 0 {
      BytesAfterInsert(c, verified, index, n - 1);
    }
  }

  lemma BytesAfterRemove(c: Config, verified: set<UInt64>, index: UInt64, n: nat)
    requires index in verified
    ensures BytesIn(c, verified - {index}, n) == BytesIn(c, verified, n) - (if index < n then PartSize(c, index) else 0)
  {
    hide PartSize;
    BytesAfterInsert(c, verified - {index}, index, n);
    assert verified - {index} + {index} == verified;
  }

  // The verified bytes never exceed what the first n chunks hold, and reach it exactly if all
  // of these are verified.
  lemma {:induction false} BytesBounded(c: Config, verified: set<UInt64>, n: nat)
    requires SealedConfig(c) && n <= ChunkCountOf(c)
    ensures n < ChunkCountOf(c) ==> BytesIn(c, verified, n) <= n * c.chunkSize
    ensures n < ChunkCountOf(c) ==> (BytesIn(c, verified, n) == n * c.chunkSize <==> forall i: UInt64 :: i < n ==> i in verified)
    ensures n == ChunkCountOf(c) ==> 0 <= BytesIn(c, verified, n) <= c.totalPlainSize
    ensures n == ChunkCountOf(c) ==>
      (BytesIn(c, verified, n) == c.totalPlainSize <==> forall i: UInt64 :: i < n ==> i in verified)
    ensures 0 <= BytesIn(c, verified, n)
  {
    hide PartSize, ChunkCountOf;
    AtLeastOne(c);
    if n > 0 {
      BytesBounded(c, verified, n - 1);
      PartSizes(c, n - 1);
      var last: UInt64 := n - 1;
      Below(n, c.chunkSize);
      assert (forall i: UInt64 :: i < n ==> i in verified) <==> last in verified && forall i: UInt64 :: i < n - 1 ==> i in verified;
    }
  }

  lemma AtLeastOne(c: Config)
    requires SealedConfig(c)
    ensures ChunkCountOf(c) >= 1
  {
    DivisionBounds(c.totalPlainSize - 1, c.chunkSize);
  }

  lemma Below(n: int, k: int)
    ensures n * k == (n - 1) * k + k
  {
  }

  // What the count of a sealed cache says: it is within the total, and reaches it exactly if
  // every chunk is verified.
  lemma CountIsComplete(c: Config, verified: set<UInt64>)
    requires SealedConfig(c)
    ensures 0 <= BytesIn(c, verified, ChunkCountOf(c)) <= c.totalPlainSize
    ensures BytesIn(c, verified, ChunkCountOf(c)) == c.totalPlainSize
            <==> forall i: UInt64 :: i < ChunkCountOf(c) ==> i in verified
  {
    hide PartSize, ChunkCountOf, BytesIn;
    BytesBounded(c, verified, ChunkCountOf(c));
  }

  // ---- Records ----

  datatype Entry = Regular(content: Bytes, readable: bool) | SymLink

  type Verify = Option<(UInt64, Bytes) -> bool>

  function RecordName(index: UInt64): string {
    Decimal(index)
  }

  function RecordContext(c: Config, index: UInt64): Context {
    Context(7, "anykeep-partial-media", c.identity + ":" + Decimal(index), 1,
            "local-range:" + Decimal(Max(0, c.totalPlainSize)) + ":" + Decimal(Max(0, c.chunkSize)))
  }

  predicate RequestValid(c: Config, index: UInt64, expectedBytes: Int64) {
    && ConfigValid(c) && 0 < expectedBytes <= MAX_CHUNK + 4096
    && (c.format == VerifiedOpaque || ExpectedPlainSize(c, index) == expectedBytes)
  }

  predicate ReadRequestValid(c: Config, index: UInt64, expectedBytes: Int64, verify: Verify) {
    RequestValid(c, index, expectedBytes) && (c.format == VerifiedOpaque ==> verify.Some?)
  }

  function SizeLimit(c: Config, expectedBytes: Int64): int {
    expectedBytes + (if c.format == LocallySealed then MAX_RECORD_OVERHEAD else 0)
  }

  // The bytes a stored record stands for, if it is usable and authentic for this request.
  function Recover(c: Config, e: Entry, index: UInt64, expectedBytes: Int64, verify: Verify): Option<Bytes> {
    if e.SymLink? || !e.readable || e.content == [] || |e.content| > SizeLimit(c, expectedBytes) then None
    else
      match PlainOf(c, e.content, index)
      case None => None
      case Some(plain) => if |plain| == expectedBytes && Accepted(verify, index, plain) then Some(plain) else None
  }

  function PlainOf(c: Config, stored: Bytes, index: UInt64): Option<Bytes> {
    if c.format == LocallySealed then Open(c.g, stored, RecordContext(c, index)) else Some(stored)
  }

  predicate Accepted(verify: Verify, index: UInt64, plain: Bytes) {
    verify.Some? ==> verify.value(index, plain)
  }

  // A record that is recovered was sealed for this index of this content in this geometry, or,
  // in the provider's format, is accepted by the provider's verifier.
  lemma RecoveredIsAuthentic(c: Config, e: Entry, index: UInt64, expectedBytes: Int64, verify: Verify)
    requires ReadRequestValid(c, index, expectedBytes, verify) && Recover(c, e, index, expectedBytes, verify).Some?
    ensures var plain := Recover(c, e, index, expectedBytes, verify).value;
      && |plain| == expectedBytes
      && (c.format == LocallySealed ==>
            e.Regular? && Open(c.g, e.content, RecordContext(c, index)) == Some(plain) && expectedBytes == PartSize(c, index))
      && (c.format == VerifiedOpaque ==> e == Regular(plain, true) && verify.Some? && verify.value(index, plain))
  {
    hide Open, RecordContext, ExpectedPlainSize, PartSize;
    ExpectedIsPartSize(c, index);
  }

  // The last colon of a text that ends in a decimal separates it from what is before.
  lemma DecimalSuffixUnique(a: string, i: nat, b: string, j: nat)
    requires a + ":" + Decimal(i) == b + ":" + Decimal(j)
    ensures |a| == |b|
  {
    hide Decimal;
    var x := a + ":" + Decimal(i);
    assert x[|a|] == ':' && x[|b|] == ':';
    assert forall k :: |a| < k < |x| ==> IsDigit(x[k]) by {
      assert forall k :: |a| < k < |x| ==> x[k] == Decimal(i)[k - |a| - 1];
    }
    assert forall k :: |b| < k < |x| ==> IsDigit(x[k]) by {
      assert forall k :: |b| < k < |x| ==> x[k] == Decimal(j)[k - |b| - 1];
    }
  }

  // Distinct indices, contents and geometries have distinct contexts.
  lemma RecordContextsDiffer(c: Config, i: UInt64, d: Config, j: UInt64)
    requires SealedConfig(c) && SealedConfig(d) && RecordContext(c, i) == RecordContext(d, j)
    ensures c.identity == d.identity && i == j && c.totalPlainSize == d.totalPlainSize && c.chunkSize == d.chunkSize
  {
    hide Decimal;
    var x, y := c.identity + ":" + Decimal(i), d.identity + ":" + Decimal(j);
    assert x == y;
    DecimalSuffixUnique(c.identity, i, d.identity, j);
    assert c.identity == x[..|c.identity|] && d.identity == y[..|d.identity|];
    assert Decimal(i) == x[|c.identity| + 1..] && Decimal(j) == y[|d.identity| + 1..];
    DecimalInjective(i, j);
    var p := "local-range:";
    var u, v := ":" + Decimal(c.chunkSize), ":" + Decimal(d.chunkSize);
    assert RecordContext(c, i).kind == p + (Decimal(c.totalPlainSize) + u);
    assert RecordContext(d, j).kind == p + (Decimal(d.totalPlainSize) + v);
    assert Decimal(c.totalPlainSize) + u == (p + (Decimal(c.totalPlainSize) + u))[|p|..];
    assert Decimal(d.totalPlainSize) + v == (p + (Decimal(d.totalPlainSize) + v))[|p|..];
    DecimalPrefixUnique(c.totalPlainSize, d.totalPlainSize, u, v);
    assert Decimal(c.chunkSize) == u[1..] && Decimal(d.chunkSize) == v[1..];
    DecimalInjective(c.chunkSize, d.chunkSize);
  }

  // So a record sealed for another index, content or geometry is never recovered.
  lemma ForeignRecordIsNotRecovered(c: Config, i: UInt64, d: Config, j: UInt64, bytes: Bytes, nonce: Bytes,
                                    expectedBytes: Int64, verify: Verify)
    requires Lawful(c.g) && d.g == c.g && SealedConfig(c) && SealedConfig(d) && |bytes| <= MAX_CHUNK + 4096
    requires Representable(RecordContext(c, i)) && Representable(RecordContext(d, j))
    requires (c.identity, i, c.totalPlainSize, c.chunkSize) != (d.identity, j, d.totalPlainSize, d.chunkSize)
    requires Seal(d.g, bytes, RecordContext(d, j), nonce).Some?
    ensures Recover(c, Regular(Seal(d.g, bytes, RecordContext(d, j), nonce).value, true), i, expectedBytes, verify) == None
  {
    hide Open, Seal, RecordContext, Lawful, AssociatedData, Representable;
    if RecordContext(c, i) == RecordContext(d, j) {
      RecordContextsDiffer(c, i, d, j);
    }
    SealOpen(d.g, bytes, RecordContext(d, j), RecordContext(c, i), nonce);
  }

  // A sealed record reads back exactly if its envelope stays within the size limit, which only
  // an identity of tens of thousands of characters exceeds.
  lemma SealedRecordReadsBack(c: Config, index: UInt64, bytes: Bytes, nonce: Bytes, verify: Verify)
    requires Lawful(c.g) && SealedConfig(c) && index < ChunkCountOf(c) && |bytes| == PartSize(c, index)
    requires Representable(RecordContext(c, index)) && (verify.Some? ==> verify.value(index, bytes))
    requires Seal(c.g, bytes, RecordContext(c, index), nonce).Some?
    ensures var e := Regular(Seal(c.g, bytes, RecordContext(c, index), nonce).value, true);
      var recovered := Recover(c, e, index, |bytes|, verify);
      && (recovered.Some? ==> recovered == Some(bytes))
      && (recovered.Some? <==> 54 + |AssociatedData(RecordContext(c, index))| <= MAX_RECORD_OVERHEAD)
  {
    hide Open, Seal, RecordContext, PartSize, ChunkCountOf, Lawful, AssociatedData, Representable;
    PartSizes(c, index);
    SealOpen(c.g, bytes, RecordContext(c, index), RecordContext(c, index), nonce);
  }

  // For instance a cache of one byte whose content has an identity of 40000 characters: writing
  // accepts the byte, and what it stores is not recovered.
  function LongIdentity(): (s: string)
    ensures |s| == 40000
  {
    seq(40000, _ => 'a')
  }

  function LongConfig(g: Gcm): Config {
    Config(LocallySealed, "cache", LongIdentity(), 1, 1, Zeros(MASTER_KEY_SIZE), g)
  }

  function Zeros(n: nat): (b: Bytes)
    ensures |b| == n
  {
    seq(n, _ => 0)
  }

  lemma LongIdentityIsNotReadBack(g: Gcm)
    requires Lawful(g) && Available(g)
    ensures var c := LongConfig(g);
      && RequestValid(c, 0, 1) && StoredForm(c, 0, [7], Zeros(NONCE_SIZE)).Some?
      && Recover(c, Regular(StoredForm(c, 0, [7], Zeros(NONCE_SIZE)).value, true), 0, 1, None) == None
  {
    hide Open, Seal, AssociatedData, Lawful, Available, Representable, RecordContext, PartSize;
    var c := LongConfig(g);
    var nonce := Zeros(NONCE_SIZE);
    assert ChunkCountOf(c) == 1;
    LongContext(c);
    AvailableSeals(g, [7], RecordContext(c, 0), nonce);
    ExpectedIsPartSize(c, 0);
    OneByte(c);
    SealedRecordReadsBack(c, 0, [7], nonce, None);
  }

  lemma OneByte(c: Config)
    requires c.totalPlainSize == 1 && c.chunkSize == 1
    ensures PartSize(c, 0) == 1
  {
  }

  lemma AvailableSeals(g: Gcm, plain: Bytes, context: Context, nonce: Bytes)
    requires Available(g) && context.container != "" && context.itemId != "" && context.kind != "" && |nonce| == NONCE_SIZE
    ensures Seal(g, plain, context, nonce).Some?
  {
    hide AssociatedData;
  }

  lemma LongContext(c: Config)
    requires c.identity == LongIdentity() && c.totalPlainSize == 1 && c.chunkSize == 1
    ensures var context := RecordContext(c, 0);
      && Representable(context) && context.container != "" && context.itemId != "" && context.kind != ""
      && 54 + |AssociatedData(context)| > MAX_RECORD_OVERHEAD
  {
    hide AssociatedData, Decimal, Plain;
    DigitIs("0", 0);
    DigitIs("1", 1);
    var context := RecordContext(c, 0);
    assert context.itemId == LongIdentity() + ":" + "0";
    assert context.kind == "local-range:1:1";
    ShortTextsArePlain(context);
    LongIsPlain();
    PlainJoins(LongIdentity(), ":");
    PlainJoins(LongIdentity() + ":", "0");
  }

  lemma DigitIs(s: string, n: nat)
    requires n < 10 && s == ["0123456789"[n]]
    ensures Decimal(n) == s
  {
  }

  lemma LongIsPlain()
    ensures Plain(LongIdentity())
  {
  }

  lemma ShortTextsArePlain(context: Context)
    requires context.container == "anykeep-partial-media" && context.kind == "local-range:1:1"
    ensures Plain(context.container) && Plain(context.kind) && Plain(":") && Plain("0")
  {
  }

  // ---- The cache ----

  // What toULongLong accepts, as far as a canonical number is concerned.
  function ToIndex(name: string): Option<UInt64> {
    if name == "" || !AllDigits(name) || Number(name) > MAX_UINT64 then None else Some(Number(name))
  }

  // The chunk a file name stands for, if it is the name of one.
  function IndexOfName(name: string): Option<UInt64> {
    match ToIndex(name)
    case None => None
    case Some(index) => if Decimal(index) == name then Some(index) else None
  }

  lemma NamesAreIndices(name: string, index: UInt64)
    ensures IndexOfName(name) == Some(index) <==> name == RecordName(index)
  {
    NumberOfDecimal(index);
  }

  // The names of the regular files, each once; the order does not matter.
  ghost predicate IsListing(files: map<string, Entry>, names: seq<string>) {
    && (forall name :: name in names <==> name in files && files[name].Regular?)
    && (forall i, j :: 0 <= i < j < |names| ==> names[i] != names[j])
  }

  class MediaPartialChunkCache {
    const config: Config
    var files: map<string, Entry>
    var verified: set<UInt64>
    var verifiedBytes: int
    var restored: bool

    ghost predicate Valid()
      reads this
    {
      if SealedConfig(config) then
        && (forall i :: i in verified ==> i < ChunkCountOf(config))
        && verifiedBytes == BytesIn(config, verified, ChunkCountOf(config))
      else verified == {} && verifiedBytes == 0
    }

    constructor (config: Config, files: map<string, Entry>)
      ensures Valid() && this.config == config && this.files == files && verified == {} && !restored
    {
      this.config, this.files := config, files;
      verified, verifiedBytes, restored := {}, 0, false;
      new;
      if SealedConfig(config) {
        NothingVerified(config, ChunkCountOf(config));
      }
    }

    method Track(index: UInt64, size: int, available: bool)
      requires Valid()
      requires SealedConfig(config) ==> index < ChunkCountOf(config) && size == PartSize(config, index)
      requires !SealedConfig(config) ==> config.format != LocallySealed
      modifies `verified, `verifiedBytes
      ensures Valid()
      ensures verified == (if config.format != LocallySealed then old(verified)
                           else if available then old(verified) + {index} else old(verified) - {index})
    {
      hide PartSize, ChunkCountOf, BytesIn;
      if config.format != LocallySealed {
        return;
      }
      if available && index !in verified {
        BytesAfterInsert(config, verified, index, ChunkCountOf(config));
        verified := verified + {index};
        verifiedBytes := verifiedBytes + size;
      } else if !available && index in verified {
        BytesAfterRemove(config, verified, index, ChunkCountOf(config));
        verified := verified - {index};
        verifiedBytes := verifiedBytes - size;
      } else {
        assert verified == if available then verified + {index} else verified - {index};
      }
    }

    // A read returns what the stored record stands for, or nothing; a record that does not
    // authenticate is removed and no longer counted. `removes` is whether files can be removed.
    method Read(index: UInt64, expectedBytes: Int64, verify: Verify, removes: bool) returns (bytes: Bytes)
      requires Valid()
      modifies `files, `verified, `verifiedBytes
      ensures Valid()
      ensures bytes == Answer(config, old(files), index, expectedBytes, verify)
      ensures files == (if Discards(config, old(files), index, expectedBytes, verify) && removes
                        then old(files) - {RecordName(index)} else old(files))
      ensures verified == (if config.format != LocallySealed || !ReadRequestValid(config, index, expectedBytes, verify)
                           then old(verified)
                           else if bytes != [] then old(verified) + {index} else old(verified) - {index})
    {
      hide Open, RecordContext, PartSize, ChunkCountOf, BytesIn, ExpectedPlainSize, RecordName;
      ExpectedIsPartSize(config, index);
      if !RequestValid(config, index, expectedBytes) || (config.format == VerifiedOpaque && verify.None?) {
        return [];
      }
      if RecordName(index) !in files {
        Track(index, expectedBytes, false);
        return [];
      }
      var entry := files[RecordName(index)];
      var limit := SizeLimit(config, expectedBytes);
      if entry.SymLink? || !entry.readable || |entry.content| <= 0 || |entry.content| > limit {
        if removes {
          files := files - {RecordName(index)};
        }
        Track(index, expectedBytes, false);
        return [];
      }
      var stored := entry.content[..Min(limit + 1, |entry.content|)];
      assert stored == entry.content;
      var plain: Bytes := [];
      if config.format == LocallySealed {
        var recovered := Open(config.g, stored, RecordContext(config, index));
        if recovered.Some? {
          plain := recovered.value;
        }
      } else {
        plain := stored;
      }
      if |plain| == expectedBytes && (verify.None? || verify.value(index, plain)) {
        Track(index, expectedBytes, true);
        return plain;
      }
      if removes {
        files := files - {RecordName(index)};
      }
      Track(index, expectedBytes, false);
      bytes := [];
    }

    // A write stores the record, sealed if the format asks for it, or changes nothing.
    method Write(index: UInt64, bytes: Bytes, expectedBytes: Int64, verify: Verify, nonce: Bytes, commits: bool)
      returns (ok: bool)
      requires Valid()
      modifies `files, `verified, `verifiedBytes
      ensures Valid()
      ensures ok <==> && RequestValid(config, index, expectedBytes) && |bytes| == expectedBytes && commits
                      && (config.format == VerifiedOpaque ==> verify.Some? && verify.value(index, bytes))
                      && StoredForm(config, index, bytes, nonce).Some?
      ensures ok ==> files == old(files)[RecordName(index) := Regular(StoredForm(config, index, bytes, nonce).value, true)]
      ensures ok ==> verified == (if config.format == LocallySealed then old(verified) + {index} else old(verified))
      ensures !ok ==> unchanged(this)
    {
      hide Seal, RecordContext, PartSize, ChunkCountOf, BytesIn, ExpectedPlainSize, RecordName;
      ExpectedIsPartSize(config, index);
      if !RequestValid(config, index, expectedBytes) || |bytes| != expectedBytes
        || (config.format == VerifiedOpaque && (verify.None? || !verify.value(index, bytes))) {
        return false;
      }
      var stored := bytes;
      if config.format == LocallySealed {
        var sealed := Seal(config.g, bytes, RecordContext(config, index), nonce);
        if sealed.None? {
          return false;
        }
        stored := sealed.value;
      }
      if !commits {
        return false;
      }
      files := files[RecordName(index) := Regular(stored, true)];
      Track(index, expectedBytes, true);
      ok := true;
    }

    // Restoring authenticates what is stored: afterwards exactly the chunks whose record can be
    // recovered count as verified.
    method RestoreVerifiedBytes(names: seq<string>, removes: bool) returns (bytes: int)
      requires Valid() && IsListing(files, names)
      modifies this
      ensures Valid() && bytes == verifiedBytes
      ensures restored == (old(restored) || SealedConfig(config))
      ensures SealedConfig(config) && !old(restored) ==>
        forall i: UInt64 :: i in verified <==> i < ChunkCountOf(config) && Recoverable(config, old(files), i)
      // Only records of the content that cannot be recovered are removed.
      ensures forall name :: name in files ==> name in old(files) && files[name] == old(files)[name]
      ensures forall name :: name in old(files) && name !in files ==> removes && Unrecoverable(config, old(files), name)
      ensures !SealedConfig(config) || old(restored) ==> files == old(files) && verified == old(verified)
    {
      hide Open, RecordContext, PartSize, ChunkCountOf, BytesIn, ExpectedPlainSize, RecordName, IndexOfName,
        Recover, Answer, Discards;
      if !ConfigValid(config) || config.format != LocallySealed {
        return 0;
      }
      if restored {
        return verifiedBytes;
      }
      restored := true;
      verified, verifiedBytes := {}, 0;
      NothingVerified(config, ChunkCountOf(config));
      ghost var before := files;
      var k := 0;
      while k < |names|
        invariant 0 <= k <= |names| && Valid() && restored
        invariant forall i: UInt64 :: i in verified ==>
          RecordName(i) in names[..k] && i < ChunkCountOf(config) && Recoverable(config, before, i)
        invariant forall i: UInt64 ::
          RecordName(i) in names[..k] && i < ChunkCountOf(config) && Recoverable(config, before, i) ==> i in verified
        invariant forall j :: k <= j < |names| ==> names[j] in files && files[names[j]] == before[names[j]]
        invariant forall name :: name in files ==> name in before && files[name] == before[name]
        invariant forall name :: name in before && name !in files ==> removes && Unrecoverable(config, before, name)
      {
        var name := names[k];
        assert names[..k + 1] == names[..k] + [name];
        forall i: UInt64 ensures IndexOfName(name) == Some(i) <==> name == RecordName(i) {
          NamesAreIndices(name, i);
        }
        var index := IndexOfName(name);
        if index.Some? {
          var expected := ExpectedPlainSize(config, index.value);
          ExpectedIsPartSize(config, index.value);
          if expected > 0 {
            ReadForRestore(config, files, before, index.value);
            var _ := Read(index.value, expected, None, removes);
          }
        }
        k := k + 1;
      }
      forall i: UInt64 | Recoverable(config, before, i) ensures RecordName(i) in names[..k] {
        RecoverableIsListed(config, before, i);
      }
      bytes := verifiedBytes;
    }
  }

  lemma {:induction false} NothingVerified(c: Config, n: nat)
    ensures BytesIn(c, {}, n) == 0
  {
    hide PartSize;
    if n > 0 {
      NothingVerified(c, n - 1);
    }
  }

  // What a read answers on this directory.
  function Answer(c: Config, files: map<string, Entry>, index: UInt64, expectedBytes: Int64, verify: Verify): Bytes {
    if !ReadRequestValid(c, index, expectedBytes, verify) || RecordName(index) !in files then []
    else
      match Recover(c, files[RecordName(index)], index, expectedBytes, verify)
      case Some(plain) => plain
      case None => []
  }

  predicate Discards(c: Config, files: map<string, Entry>, index: UInt64, expectedBytes: Int64, verify: Verify) {
    ReadRequestValid(c, index, expectedBytes, verify) && RecordName(index) in files
    && Recover(c, files[RecordName(index)], index, expectedBytes, verify).None?
  }

  function StoredForm(c: Config, index: UInt64, bytes: Bytes, nonce: Bytes): Option<Bytes> {
    if c.format == LocallySealed then Seal(c.g, bytes, RecordContext(c, index), nonce) else Some(bytes)
  }

  // Of a sealed cache exactly the chunks may be asked for, each in its size; in the provider's format
  // anything up to 16 mebibytes and four kibibytes, if the cache has a directory and no key.
  lemma ValidRequests(c: Config, index: UInt64, expectedBytes: Int64)
    ensures SealedConfig(c) ==>
      (RequestValid(c, index, expectedBytes) <==> index < ChunkCountOf(c) && expectedBytes == PartSize(c, index))
    ensures c.format == VerifiedOpaque ==>
      (RequestValid(c, index, expectedBytes) <==> c.directory != "" && c.masterKey == [] && 1 <= expectedBytes <= 16781312)
  {
    hide PartSize, ChunkCountOf, ExpectedPlainSize;
    if SealedConfig(c) {
      ExpectedIsPartSize(c, index);
      if index < ChunkCountOf(c) {
        PartSizes(c, index);
      }
    }
  }

  // The directory after a write that stored its record.
  function AfterWrite(c: Config, files: map<string, Entry>, index: UInt64, stored: Bytes): map<string, Entry> {
    files[RecordName(index) := Regular(stored, true)]
  }

  // In the provider's format what was written is read back if and only if it is asked for in its size
  // and the verifier accepts it.
  lemma OpaqueRecordReadsBack(c: Config, files: map<string, Entry>, index: UInt64, bytes: Bytes, nonce: Bytes,
                              expectedBytes: Int64, verify: Verify)
    requires c.format == VerifiedOpaque && |bytes| <= MAX_INT64
    requires RequestValid(c, index, |bytes|) && ReadRequestValid(c, index, expectedBytes, verify)
    ensures StoredForm(c, index, bytes, nonce) == Some(bytes)
    ensures Answer(c, AfterWrite(c, files, index, bytes), index, expectedBytes, verify)
            == if |bytes| == expectedBytes && verify.value(index, bytes) then bytes else []
  {
    hide RecordName;
  }

  // Whatever is written for a chunk, every other chunk is read as before.
  lemma WriteLeavesOthers(c: Config, files: map<string, Entry>, index: UInt64, stored: Bytes, other: UInt64,
                          expectedBytes: Int64, verify: Verify)
    requires other != index
    ensures Answer(c, AfterWrite(c, files, index, stored), other, expectedBytes, verify)
            == Answer(c, files, other, expectedBytes, verify)
  {
    hide Recover, ReadRequestValid, Decimal;
    if RecordName(other) == RecordName(index) {
      DecimalInjective(other, index);
    }
  }

  predicate Recoverable(c: Config, files: map<string, Entry>, index: UInt64) {
    RecordName(index) in files && Recover(c, files[RecordName(index)], index, ExpectedPlainSize(c, index), None).Some?
  }

  // The file is named like a chunk of the content but does not hold it.
  predicate Unrecoverable(c: Config, files: map<string, Entry>, name: string) {
    IndexOfName(name).Some? && ExpectedPlainSize(c, IndexOfName(name).value) > 0
    && !Recoverable(c, files, IndexOfName(name).value)
  }

  lemma RecoverableIsListed(c: Config, files: map<string, Entry>, index: UInt64)
    requires Recoverable(c, files, index)
    ensures files[RecordName(index)].Regular?
  {
    hide Open, ExpectedPlainSize;
  }

  // The read of a chunk that restoring does: it is a valid request, and answers with bytes
  // exactly if the chunk is recoverable.
  lemma ReadForRestore(c: Config, files: map<string, Entry>, before: map<string, Entry>, index: UInt64)
    requires SealedConfig(c) && ExpectedPlainSize(c, index) > 0
    requires RecordName(index) in files && RecordName(index) in before && files[RecordName(index)] == before[RecordName(index)]
    ensures ReadRequestValid(c, index, ExpectedPlainSize(c, index), None)
    ensures Answer(c, files, index, ExpectedPlainSize(c, index), None) != [] <==> Recoverable(c, before, index)
    ensures Discards(c, files, index, ExpectedPlainSize(c, index), None) <==> !Recoverable(c, before, index)
  {
    hide Open, RecordContext, PartSize, RecordName, ExpectedPlainSize, ChunkCountOf;
    ExpectedIsPartSize(c, index);
    PartSizes(c, index);
  }
}
