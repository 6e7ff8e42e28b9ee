// SecureEnvelope: sealed records over an abstract AES-GCM, framed as QDataStream
// writes them. The context of a record is authenticated with its plaintext.
module Envelope {
  import opened Basics
  import opened Encoding

  datatype Ciphertext = Ciphertext(text: Bytes, tag: Bytes)

  // AES-256-GCM under one derived key. Encryption may be unavailable.
  datatype Gcm = Gcm(
    encrypt: (Bytes, Bytes) -> Option<Ciphertext>,
    decrypt: (Ciphertext, Bytes) -> Option<Bytes>)

  const NONCE_SIZE := 12
  const TAG_SIZE := 16

  ghost predicate Lawful(g: Gcm) {
    forall plain: Bytes, nonce: Bytes :: Inverts(g, plain, nonce)
  }

  predicate Inverts(g: Gcm, plain: Bytes, nonce: Bytes) {
    match g.encrypt(plain, nonce)
    case None => true
    case Some(c) => |c.text| == |plain| && |c.tag| == TAG_SIZE && g.decrypt(c, nonce) == Some(plain)
  }

  // The assumption can be met: copying with a constant tag meets it.
  lemma LawfulCiphersExist()
    ensures exists g :: Lawful(g) && Available(g)
  {
    var tag: Bytes := [0, 0, 0, 0, 0, 0, 0, 0, 0, 0, 0, 0, 0, 0, 0, 0];
    var g := Gcm((plain: Bytes, nonce: Bytes) => Some(Ciphertext(plain, tag)), (c: Ciphertext, nonce: Bytes) => Some(c.text));
    assert Lawful(g) && Available(g);
  }

  // Encryption never fails.
  ghost predicate Available(g: Gcm) {
    forall plain: Bytes, nonce: Bytes :: g.encrypt(plain, nonce).Some?
  }

  datatype Context = Context(domain: Byte, container: string, itemId: string, schema: nat, kind: string)

  // What the encoding of a context can represent without loss.
  predicate Representable(c: Context) {
    && Plain(c.container) && Plain(c.itemId) && Plain(c.kind)
    && |c.container| < 0x100_0000 && |c.itemId| < 0x100_0000 && |c.kind| < 0x100_0000
    && c.schema <= MAX_UINT32
  }

  const AAD_MAGIC := 0x514e4144
  const ENVELOPE_MAGIC := 0x514e5345

  function AssociatedData(c: Context): (b: Bytes)
    ensures |b| == 23 + 2 * (|c.container| + |c.itemId| + |c.kind|)
  {
    Be(AAD_MAGIC, 4) + Be(1, 2) + [c.domain] + PutString(c.container) + PutString(c.itemId)
      + Be(c.schema, 4) + PutString(c.kind)
  }

  lemma AssociatedDataInjective(a: Context, b: Context)
    requires Representable(a) && Representable(b) && AssociatedData(a) == AssociatedData(b)
    ensures a == b
  {
    hide Utf16, Be, Put;
    Powers();
    var p := Be(AAD_MAGIC, 4) + Be(1, 2);
    var a1 := PutString(a.container) + (PutString(a.itemId) + (Be(a.schema, 4) + PutString(a.kind)));
    var b1 := PutString(b.container) + (PutString(b.itemId) + (Be(b.schema, 4) + PutString(b.kind)));
    assert AssociatedData(a) == p + ([a.domain] + a1);
    assert AssociatedData(b) == p + ([b.domain] + b1);
    CommonPrefix(p, [a.domain] + a1, [b.domain] + b1);
    assert ([a.domain] + a1)[0] == a.domain && ([b.domain] + b1)[0] == b.domain;
    CommonPrefix([a.domain], a1, b1);
    var a2 := PutString(a.itemId) + (Be(a.schema, 4) + PutString(a.kind));
    var b2 := PutString(b.itemId) + (Be(b.schema, 4) + PutString(b.kind));
    PutStringPrefixUnique(a.container, b.container, a2, b2);
    PutStringPrefixUnique(a.itemId, b.itemId, Be(a.schema, 4) + PutString(a.kind), Be(b.schema, 4) + PutString(b.kind));
    TakeNumberOfBe(a.schema, 4, PutString(a.kind));
    TakeNumberOfBe(b.schema, 4, PutString(b.kind));
    assert PutString(a.kind) + [] == PutString(a.kind) && PutString(b.kind) + [] == PutString(b.kind);
    PutStringPrefixUnique(a.kind, b.kind, [], []);
  }

  function Seal(g: Gcm, plain: Bytes, context: Context, nonce: Bytes): Option<Bytes> {
    if context.container == "" || context.itemId == "" || context.kind == "" || |nonce| != NONCE_SIZE then None
    else
      match g.encrypt(Put(AssociatedData(context)) + Put(plain), nonce)
      case None => None
      case Some(c) => Some(Be(ENVELOPE_MAGIC, 4) + Be(1, 2) + Put(nonce) + Put(c.tag) + Put(c.text))
  }

  function Open(g: Gcm, envelope: Bytes, context: Context): Option<Bytes> {
    match Unframe(envelope)
    case None => None
    case Some((nonce, c)) =>
      if |nonce| != NONCE_SIZE || |c.tag| != TAG_SIZE || c.text == [] then None
      else
        match g.decrypt(c, nonce)
        case None => None
        case Some(framed) => OpenFramed(framed, context)
  }

  function Unframe(envelope: Bytes): Option<(Bytes, Ciphertext)> {
    match TakeNumber(envelope, 4)
    case None => None
    case Some((magic, s1)) =>
      match TakeNumber(s1, 2)
      case None => None
      case Some((version, s2)) =>
        if magic != ENVELOPE_MAGIC || version != 1 then None
        else
          match Take(s2)
          case None => None
          case Some((nonce, s3)) =>
            match Take(s3)
            case None => None
            case Some((tag, s4)) =>
              match Take(s4)
              case None => None
              case Some((text, _)) => Some((nonce, Ciphertext(text, tag)))
  }

  function OpenFramed(framed: Bytes, context: Context): Option<Bytes> {
    match Take(framed)
    case None => None
    case Some((embedded, rest)) =>
      match Take(rest)
      case None => None
      case Some((plain, _)) => if embedded == AssociatedData(context) then Some(plain) else None
  }

  // How long a sealed record is: this depends only on the lengths of plaintext and context.
  function SealedSize(plainSize: nat, context: Context): nat {
    54 + |AssociatedData(context)| + plainSize
  }

  lemma UnframeSealed(nonce: Bytes, tag: Bytes, text: Bytes)
    requires |nonce| <= MAX_UINT32 && |tag| <= MAX_UINT32 && |text| <= MAX_UINT32
    ensures Unframe(Be(ENVELOPE_MAGIC, 4) + Be(1, 2) + Put(nonce) + Put(tag) + Put(text))
            == Some((nonce, Ciphertext(text, tag)))
  {
    hide Be, Put, Take, TakeNumber;
    Powers();
    var s4 := Put(text) + [];
    var s3 := Put(tag) + s4;
    var s2 := Put(nonce) + s3;
    assert Put(text) + [] == Put(text);
    var e := Be(ENVELOPE_MAGIC, 4) + Be(1, 2) + Put(nonce) + Put(tag) + Put(text);
    assert e == Be(ENVELOPE_MAGIC, 4) + (Be(1, 2) + s2);
    TakeNumberOfBe(ENVELOPE_MAGIC, 4, Be(1, 2) + s2);
    TakeNumberOfBe(1, 2, s2);
    TakeOfPut(nonce, s3);
    TakeOfPut(tag, s4);
    TakeOfPut(text, []);
  }

  // Opening what was sealed, in the same context, gives the plaintext back; in any other
  // context it fails. The length is known beforehand.
  lemma SealOpen(g: Gcm, plain: Bytes, context: Context, other: Context, nonce: Bytes)
    requires Lawful(g) && Representable(context) && Representable(other) && |plain| < 0x4000_0000
    requires Seal(g, plain, context, nonce).Some?
    ensures var e := Seal(g, plain, context, nonce).value;
      && |e| == SealedSize(|plain|, context)
      && Open(g, e, context) == Some(plain)
      && (other != context ==> Open(g, e, other) == None)
  {
    hide Be, Take, TakeNumber, Unframe, Utf16, AssociatedData;
    var framed := Put(AssociatedData(context)) + Put(plain);
    assert Inverts(g, framed, nonce);
    var c := g.encrypt(framed, nonce).value;
    UnframeSealed(nonce, c.tag, c.text);
    assert Put(plain) + [] == Put(plain);
    TakeOfPut(AssociatedData(context), Put(plain));
    TakeOfPut(plain, []);
    if other != context && AssociatedData(other) == AssociatedData(context) {
      AssociatedDataInjective(other, context);
    }
  }
}
