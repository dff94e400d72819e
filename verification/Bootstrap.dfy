/**
 * The signed bootstrap document: its wire form, the five-field form that clients before the
 * tunnel fields read, and the client's verification of it.
 */
module Bootstrap {
  import opened Prelude
  import opened Bytes
  import opened Codec

  /** The fields every client version knows. */
  datatype OldDoc = OldDoc(
    version: byte,
    relayUrl: seq<byte>,
    gatewayKc: seq<byte>,
    issuerKeyId: seq<byte>,
    issuedAtS: nat)

  /** The current document: three optional fields were appended. */
  datatype BootstrapDoc = BootstrapDoc(
    version: byte,
    relayUrl: seq<byte>,
    gatewayKc: seq<byte>,
    issuerKeyId: seq<byte>,
    issuedAtS: nat,
    tunnelUrl: Option<seq<byte>>,
    powDifficulty: Option<nat>,
    epochSalt: Option<seq<byte>>)

  function FirstFive(d: BootstrapDoc): OldDoc {
    OldDoc(d.version, d.relayUrl, d.gatewayKc, d.issuerKeyId, d.issuedAtS)
  }

  // ---- the Rust types' own limits ----

  ghost predicate OldTyped(utf8: seq<byte> -> bool, o: OldDoc) {
    && utf8(o.relayUrl) && |o.relayUrl| <= U64_MAX
    && |o.gatewayKc| <= U64_MAX
    && |o.issuerKeyId| == 32
    && o.issuedAtS <= U64_MAX
  }

  ghost predicate Typed(utf8: seq<byte> -> bool, d: BootstrapDoc) {
    && OldTyped(utf8, FirstFive(d))
    && (d.tunnelUrl.Some? ==> utf8(d.tunnelUrl.value) && |d.tunnelUrl.value| <= U64_MAX)
    && (d.powDifficulty.Some? ==> d.powDifficulty.value <= U32_MAX)
    && (d.epochSalt.Some? ==> |d.epochSalt.value| == 32)
  }

  // ---- the wire forms ----

  type OldFields = (byte, (seq<byte>, (seq<byte>, (seq<byte>, nat))))
  type AddedFields = (Option<seq<byte>>, (Option<nat>, Option<seq<byte>>))

  function OldFieldsCodec(utf8: seq<byte> -> bool): Codec<OldFields> {
    Pair(U8(), Pair(Text(utf8), Pair(Vec8(), Pair(Raw(32), U64()))))
  }

  function AddedFieldsCodec(utf8: seq<byte> -> bool): Codec<AddedFields> {
    Pair(Opt(Text(utf8)), Pair(Opt(U32()), Opt(Raw(32))))
  }

  function ToOld(t: OldFields): OldDoc { OldDoc(t.0, t.1.0, t.1.1.0, t.1.1.1.0, t.1.1.1.1) }

  function FromOld(o: OldDoc): OldFields {
    (o.version, (o.relayUrl, (o.gatewayKc, (o.issuerKeyId, o.issuedAtS))))
  }

  function ToDoc(t: (OldFields, AddedFields)): BootstrapDoc {
    var (o, a) := t;
    BootstrapDoc(o.0, o.1.0, o.1.1.0, o.1.1.1.0, o.1.1.1.1, a.0, a.1.0, a.1.1)
  }

  function FromDoc(d: BootstrapDoc): (OldFields, AddedFields) {
    (FromOld(FirstFive(d)), (d.tunnelUrl, (d.powDifficulty, d.epochSalt)))
  }

  function OldCodec(utf8: seq<byte> -> bool): Codec<OldDoc> {
    View(OldFieldsCodec(utf8), ToOld, FromOld)
  }

  function DocCodec(utf8: seq<byte> -> bool): Codec<BootstrapDoc> {
    View(Pair(OldFieldsCodec(utf8), AddedFieldsCodec(utf8)), ToDoc, FromDoc)
  }

  // ---- both forms are lawful ----

  lemma OldFieldsLawful(utf8: seq<byte> -> bool)
    ensures Lawful(OldFieldsCodec(utf8))
  {
    U8Lawful();
    TextLawful(utf8);
    RawLawful(32);
    VarintLawful(10, 1);
    PairLawful(Raw(32), U64());
    PairLawful(Vec8(), Pair(Raw(32), U64()));
    PairLawful(Text(utf8), Pair(Vec8(), Pair(Raw(32), U64())));
    PairLawful(U8(), Pair(Text(utf8), Pair(Vec8(), Pair(Raw(32), U64()))));
  }

  lemma AddedFieldsLawful(utf8: seq<byte> -> bool)
    ensures Lawful(AddedFieldsCodec(utf8))
  {
    TextLawful(utf8);
    RawLawful(32);
    VarintLawful(5, 15);
    OptLawful(Text(utf8));
    OptLawful(U32());
    OptLawful(Raw(32));
    PairLawful(Opt(U32()), Opt(Raw(32)));
    PairLawful(Opt(Text(utf8)), Pair(Opt(U32()), Opt(Raw(32))));
  }

  lemma DocLawful(utf8: seq<byte> -> bool)
    ensures Lawful(OldCodec(utf8)) && Lawful(DocCodec(utf8))
  {
    OldFieldsLawful(utf8);
    AddedFieldsLawful(utf8);
    ViewLawful(OldFieldsCodec(utf8), ToOld, FromOld);
    PairLawful(OldFieldsCodec(utf8), AddedFieldsCodec(utf8));
    ViewLawful(Pair(OldFieldsCodec(utf8), AddedFieldsCodec(utf8)), ToDoc, FromDoc);
  }

  /** Every document the Rust type can hold is one the codec covers. */
  lemma TypedIsOk(utf8: seq<byte> -> bool, d: BootstrapDoc)
    ensures OldTyped(utf8, FirstFive(d)) <==> OldCodec(utf8).ok(FirstFive(d))
    ensures Typed(utf8, d) <==> DocCodec(utf8).ok(d)
  {
    PlainLimits(utf8);
    assert OldFieldsCodec(utf8).ok(FromOld(FirstFive(d))) <==> OldTyped(utf8, FirstFive(d));
    var (_, a) := FromDoc(d);
    assert Opt(Text(utf8)).ok(a.0) <==> (a.0.None? || Text(utf8).ok(a.0.value));
    assert Opt(U32()).ok(a.1.0) <==> (a.1.0.None? || U32().ok(a.1.0.value));
    assert AddedFieldsCodec(utf8).ok(a) <==>
      (Opt(Text(utf8)).ok(a.0) && Opt(U32()).ok(a.1.0) && Opt(Raw(32)).ok(a.1.1));
  }

  // ---- the bytes, field by field ----

  /** The five original fields in their order. */
  function OldBytes(o: OldDoc): seq<byte> {
    [o.version] + (LengthPrefixed(o.relayUrl) + (LengthPrefixed(o.gatewayKc)
      + (o.issuerKeyId + EncodeVarint(o.issuedAtS))))
  }

  /** The three appended fields in their order, each behind a tag. */
  function AddedBytes(d: BootstrapDoc): seq<byte> {
    (if d.tunnelUrl.None? then [0] else [1] + LengthPrefixed(d.tunnelUrl.value))
    + ((if d.powDifficulty.None? then [0] else [1] + EncodeVarint(d.powDifficulty.value))
       + (if d.epochSalt.None? then [0] else [1] + d.epochSalt.value))
  }

  lemma OldLayout(utf8: seq<byte> -> bool, o: OldDoc)
    ensures OldFieldsCodec(utf8).enc(FromOld(o)) == OldBytes(o) && OldCodec(utf8).enc(o) == OldBytes(o)
  {
    VectorLayout(utf8, o.relayUrl);
    VectorLayout(utf8, o.gatewayKc);
    var (v, (url, (kc, (id, at)))) := FromOld(o);
    assert Pair(Raw(32), U64()).enc((id, at)) == id + EncodeVarint(at);
    assert Pair(Vec8(), Pair(Raw(32), U64())).enc((kc, (id, at))) == LengthPrefixed(kc) + (id + EncodeVarint(at));
  }

  lemma AddedLayout(utf8: seq<byte> -> bool, d: BootstrapDoc)
    ensures AddedFieldsCodec(utf8).enc(FromDoc(d).1) == AddedBytes(d)
  {
    if d.tunnelUrl.Some? { VectorLayout(utf8, d.tunnelUrl.value); }
    var (url, (pow, salt)) := FromDoc(d).1;
    assert Pair(Opt(U32()), Opt(Raw(32))).enc((pow, salt)) == Opt(U32()).enc(pow) + Opt(Raw(32)).enc(salt);
  }

  /** A document on the wire is its fields in declaration order, and an old document is the first five. */
  lemma DocLayout(utf8: seq<byte> -> bool, d: BootstrapDoc)
    ensures OldCodec(utf8).enc(FirstFive(d)) == OldBytes(FirstFive(d))
    ensures DocCodec(utf8).enc(d) == OldBytes(FirstFive(d)) + AddedBytes(d)
  {
    OldLayout(utf8, FirstFive(d));
    AddedLayout(utf8, d);
    var (o, a) := FromDoc(d);
    assert DocCodec(utf8).enc(d) == OldFieldsCodec(utf8).enc(o) + AddedFieldsCodec(utf8).enc(a);
  }

  // ---- one-way compatibility ----

  lemma BootstrapRoundTrip(utf8: seq<byte> -> bool, d: BootstrapDoc, trailing: seq<byte>)
    requires Typed(utf8, d)
    ensures DocCodec(utf8).dec(DocCodec(utf8).enc(d) + trailing) == Some((d, trailing))
  {
    DocLawful(utf8);
    TypedIsOk(utf8, d);
  }

  /** A client built before the appended fields reads its five fields off every new document. */
  lemma OldClientReadsNewDoc(utf8: seq<byte> -> bool, d: BootstrapDoc)
    requires Typed(utf8, d)
    ensures OldCodec(utf8).dec(DocCodec(utf8).enc(d)).Some?
    ensures OldCodec(utf8).dec(DocCodec(utf8).enc(d)).value.0 == FirstFive(d)
  {
    OldFieldsLawful(utf8);
    TypedIsOk(utf8, d);
    var (o, a) := FromDoc(d);
    AppendIsOneWay(OldFieldsCodec(utf8), AddedFieldsCodec(utf8), o, a);
  }

  /** A client built with the appended fields rejects every five-field document. */
  lemma NewClientRejectsOldDoc(utf8: seq<byte> -> bool, o: OldDoc)
    requires OldTyped(utf8, o)
    ensures DocCodec(utf8).dec(OldCodec(utf8).enc(o)).None?
  {
    OldFieldsLawful(utf8);
    var d := BootstrapDoc(o.version, o.relayUrl, o.gatewayKc, o.issuerKeyId, o.issuedAtS, None, None, None);
    TypedIsOk(utf8, d);
    assert FirstFive(d) == o;
    var (f, a) := FromDoc(d);
    AppendIsOneWay(OldFieldsCodec(utf8), AddedFieldsCodec(utf8), f, a);
  }

  /** A truncated document is rejected wherever it was cut. */
  lemma TruncatedDocRejected(utf8: seq<byte> -> bool, d: BootstrapDoc, cut: nat)
    requires Typed(utf8, d) && cut < |DocCodec(utf8).enc(d)|
    ensures DocCodec(utf8).dec(DocCodec(utf8).enc(d)[..cut]).None?
  {
    DocLawful(utf8);
    TypedIsOk(utf8, d);
    ProperPrefixRejected(DocCodec(utf8), d, DocCodec(utf8).enc(d)[..cut]);
  }

  // ---- the client's check ----

  datatype ClientResult<T> = Ok(value: T) | CryptoError | ProtocolError

  /** The bytes of "https://". */
  const HTTPS: seq<byte> := [0x68, 0x74, 0x74, 0x70, 0x73, 0x3A, 0x2F, 0x2F]

  const MAX_DIFFICULTY: nat := 30

  /** Outside knowledge: signature check under the pinned key, UTF-8, and strict `wss` URL parsing. */
  datatype Trust = Trust(
    signed: (seq<byte>, seq<byte>) -> bool,
    utf8: seq<byte> -> bool,
    cleanWss: seq<byte> -> bool)

  function VerifyBootstrap(env: Trust, doc: seq<byte>, sig: seq<byte>): ClientResult<BootstrapDoc> {
    if !env.signed(doc, sig) then CryptoError
    else match DocCodec(env.utf8).dec(doc)
      case None => ProtocolError
      case Some((d, _)) =>
        if d.version != 1 || d.gatewayKc == [] || !(HTTPS <= d.relayUrl) then ProtocolError
        else if d.tunnelUrl.Some? && !env.cleanWss(d.tunnelUrl.value) then ProtocolError
        else if d.powDifficulty.Some? && d.powDifficulty.value > MAX_DIFFICULTY then ProtocolError
        else Ok(d)
  }

  /** Nothing unsigned is looked at, and nothing undecodable is taken. */
  lemma OnlySignedDocsAccepted(env: Trust, doc: seq<byte>, sig: seq<byte>)
    ensures VerifyBootstrap(env, doc, sig) == CryptoError <==> !env.signed(doc, sig)
    ensures VerifyBootstrap(env, doc, sig).Ok? ==>
      && DocCodec(env.utf8).dec(doc).Some?
      && VerifyBootstrap(env, doc, sig).value == DocCodec(env.utf8).dec(doc).value.0
      && Consumable(env, VerifyBootstrap(env, doc, sig).value)
  {}

  /** What a client is willing to consume. */
  predicate Consumable(env: Trust, d: BootstrapDoc) {
    && d.version == 1 && |d.gatewayKc| > 0 && [0x68, 0x74, 0x74, 0x70, 0x73, 0x3A, 0x2F, 0x2F] <= d.relayUrl
    && (d.tunnelUrl == None || env.cleanWss(d.tunnelUrl.value))
    && (d.powDifficulty == None || d.powDifficulty.value <= 30)
  }

  /** A genuinely signed document comes through unchanged exactly if it is consumable. */
  lemma SignedDocAcceptedIff(env: Trust, d: BootstrapDoc, sig: seq<byte>)
    requires Typed(env.utf8, d) && env.signed(DocCodec(env.utf8).enc(d), sig)
    ensures VerifyBootstrap(env, DocCodec(env.utf8).enc(d), sig)
         == if Consumable(env, d) then Ok(d) else ProtocolError
  {
    DocLawful(env.utf8);
    TypedIsOk(env.utf8, d);
    DecodesItself(DocCodec(env.utf8), d);
  }

  /** The deploy order: an old blob is refused by a new client even under a genuine signature. */
  lemma SignedOldDocRefused(env: Trust, o: OldDoc, sig: seq<byte>)
    requires OldTyped(env.utf8, o)
    ensures !VerifyBootstrap(env, OldCodec(env.utf8).enc(o), sig).Ok?
  {
    NewClientRejectsOldDoc(env.utf8, o);
  }
}
