/**
 * The signed registry snapshot: the ACTIVE hosts in key order, encoded, length-prefixed and padded
 * to one fixed size, and the two verifiers that read it back.
 */
module Snapshot {
  import opened Prelude
  import opened Bytes
  import opened Codec
  import opened Registry
  import opened Bootstrap

  const BUCKET: nat := 65536
  const LEN_PREFIX: nat := 4

  datatype Entry = Entry(
    account: seq<byte>,
    hpkePk: seq<byte>,
    models: seq<seq<byte>>,
    tierFlags: byte,
    loadBucket: byte,
    freshnessBucket: byte)

  datatype Header = Header(epoch: nat, issuedAtH: nat, issuerKeyId: seq<byte>)

  datatype Body = Body(header: Header, hosts: seq<Entry>)

  datatype Response = Response(body: seq<byte>, sig: seq<byte>)

  // ---- what a snapshot lists ----

  function EntryOf(k: Key, row: HostRow): Entry { Entry(k, row.hpkePk, row.models, 0, row.loadBucket, 0) }

  /** What an entry shows of a row, field by field. */
  predicate Shows(e: Entry, k: Key, row: HostRow) {
    && e.account == k
    && e.hpkePk == row.hpkePk
    && e.models == row.models
    && e.loadBucket == row.loadBucket
    && e.tierFlags == 0 && e.freshnessBucket == 0
  }

  lemma EntryShows(e: Entry, k: Key, row: HostRow)
    ensures Shows(e, k, row) <==> e == EntryOf(k, row)
  {}

  ghost predicate Ascending(hosts: seq<Entry>) {
    forall i, j :: 0 <= i < j < |hosts| ==> LexLess(hosts[i].account, hosts[j].account)
  }

  /** `e` is the entry of an ACTIVE row of `m` whose key is in `ks`. */
  ghost predicate Describes(m: Hosts, ks: set<Key>, e: Entry) {
    exists k :: k in ks && k in m && m[k].active && e == EntryOf(k, m[k])
  }

  /** The entries of the ACTIVE rows among `todo`, first key first. */
  ghost function ActiveAmong(m: Hosts, todo: set<Key>): seq<Entry>
    requires todo <= m.Keys
    decreases |todo|
  {
    if todo == {} then []
    else
      FirstExists(todo);
      var k :| k in todo && IsFirst(todo, k);
      (if m[k].active then [EntryOf(k, m[k])] else []) + ActiveAmong(m, todo - {k})
  }

  ghost function Listing(m: Hosts): seq<Entry> { ActiveAmong(m, m.Keys) }

  lemma ActiveAmongStep(m: Hosts, todo: set<Key>, k: Key)
    requires todo <= m.Keys && IsFirst(todo, k)
    ensures ActiveAmong(m, todo)
         == (if m[k].active then [EntryOf(k, m[k])] else []) + ActiveAmong(m, todo - {k})
  {
    FirstExists(todo);
    forall c | c in todo && IsFirst(todo, c) ensures c == k {
      LexTotal(c, k);
    }
  }

  lemma {:induction false} ActiveAmongLists(m: Hosts, todo: set<Key>)
    requires todo <= m.Keys
    ensures Ascending(ActiveAmong(m, todo))
    ensures forall e :: e in ActiveAmong(m, todo) <==> Describes(m, todo, e)
    decreases |todo|
  {
    if todo != {} {
      FirstExists(todo);
      var k :| k in todo && IsFirst(todo, k);
      var rest := todo - {k};
      ActiveAmongStep(m, todo, k);
      ActiveAmongLists(m, rest);
      forall e ensures e in ActiveAmong(m, todo) <==> Describes(m, todo, e) {
        DescribesSplit(m, todo, k, e);
      }
      forall e | e in ActiveAmong(m, rest) ensures LexLess(k, e.account) {
        assert Describes(m, rest, e);
      }
    }
  }

  lemma DescribesSplit(m: Hosts, todo: set<Key>, k: Key, e: Entry)
    requires k in todo && k in m
    ensures Describes(m, todo, e) <==> Describes(m, todo - {k}, e) || (m[k].active && e == EntryOf(k, m[k]))
  {
    if Describes(m, todo, e) {
      var c :| c in todo && c in m && m[c].active && e == EntryOf(c, m[c]);
      assert c != k ==> c in todo - {k};
    }
  }

  /** An ascending list is determined by what it contains. */
  lemma {:induction false} AscendingUnique(a: seq<Entry>, b: seq<Entry>)
    requires Ascending(a) && Ascending(b) && forall e :: e in a <==> e in b
    ensures a == b
    decreases |a|
  {
    assert b != [] ==> b[0] in b;
    if a != [] {
      HeadsAgree(a, b);
      forall e ensures e in a[1..] <==> e in b[1..] {
        TailMembers(a, e);
        TailMembers(b, e);
      }
      AscendingUnique(a[1..], b[1..]);
      assert a == [a[0]] + a[1..] && b == [b[0]] + b[1..];
    }
  }

  lemma HeadsAgree(a: seq<Entry>, b: seq<Entry>)
    requires a != [] && Ascending(a) && Ascending(b) && forall e :: e in a <==> e in b
    ensures b != [] && a[0] == b[0]
  {
    assert a[0] in b;
    assert b[0] in a;
    var i :| 0 <= i < |b| && b[i] == a[0];
    var j :| 0 <= j < |a| && a[j] == b[0];
    if i > 0 && j > 0 {
      LexTotal(a[0].account, b[0].account);
    }
  }

  lemma TailMembers(a: seq<Entry>, e: Entry)
    requires a != [] && Ascending(a)
    ensures e in a[1..] <==> e in a && e != a[0]
  {
    LexTotal(a[0].account, a[0].account);
  }

  /** Tables that agree on their ACTIVE entries publish the same list: nothing else shows. */
  lemma ListingShowsOnlyActive(m: Hosts, n: Hosts)
    requires forall e :: Describes(m, m.Keys, e) <==> Describes(n, n.Keys, e)
    ensures Listing(m) == Listing(n)
  {
    ActiveAmongLists(m, m.Keys);
    ActiveAmongLists(n, n.Keys);
    AscendingUnique(Listing(m), Listing(n));
  }

  /** The scan of the host table. */
  method Build(m: Hosts, header: Header) returns (body: Body)
    ensures body == Body(header, Listing(m))
    ensures Ascending(body.hosts)
    ensures forall e :: e in body.hosts <==> Describes(m, m.Keys, e)
    ensures forall e :: e in body.hosts <==> exists k :: k in m && m[k].active && Shows(e, k, m[k])
  {
    var out: seq<Entry> := [];
    var todo := m.Keys;
    while todo != {}
      invariant todo <= m.Keys && ScanInv(m, todo, out)
      decreases |todo|
    {
      FirstExists(todo);
      var k :| k in todo && IsFirst(todo, k);
      ScanNext(m, todo, out, k);
      todo := todo - {k};
      if m[k].active {
        out := out + [Entry(k, m[k].hpkePk, m[k].models, 0, m[k].loadBucket, 0)];
      }
    }
    ActiveAmongLists(m, m.Keys);
    ListingShows(m);
    body := Body(header, out);
  }

  /** The listing shows exactly the ACTIVE rows. */
  lemma ListingShows(m: Hosts)
    ensures forall e :: e in Listing(m) <==> exists k :: k in m && m[k].active && Shows(e, k, m[k])
  {
    ActiveAmongLists(m, m.Keys);
    forall e ensures Describes(m, m.Keys, e) <==> exists k :: k in m && m[k].active && Shows(e, k, m[k]) {
      if Describes(m, m.Keys, e) {
        var k :| k in m && m[k].active && e == EntryOf(k, m[k]);
        assert Shows(e, k, m[k]);
      }
      if k :| k in m && m[k].active && Shows(e, k, m[k]) {
        EntryShows(e, k, m[k]);
      }
    }
  }

  /**
   * Over any run, a published entry carries the key and the models its host registered last, and the load of
   * its latest accepted heartbeat.
   */
  lemma EntriesUpToDate(p: Policy, run: seq<Timed>, e: Entry)
    requires e in Listing(Play(p, run).hosts)
    ensures var h := Play(p, run);
      exists k :: k in h.described && e.account == k && e.hpkePk == h.described[k].hpkePk
        && e.models == h.described[k].models && e.loadBucket == (if k in h.load then h.load[k] else 0)
  {
    var h := Play(p, run);
    ListingShows(h.hosts);
    var k :| k in h.hosts && h.hosts[k].active && Shows(e, k, h.hosts[k]);
    RowsUpToDate(p, run, k);
  }

  /** What was pushed so far, followed by what the rest of the scan will push. */
  ghost predicate ScanInv(m: Hosts, todo: set<Key>, out: seq<Entry>)
    requires todo <= m.Keys
  {
    out + ActiveAmong(m, todo) == Listing(m)
  }

  lemma ScanNext(m: Hosts, todo: set<Key>, out: seq<Entry>, k: Key)
    requires todo <= m.Keys && ScanInv(m, todo, out) && IsFirst(todo, k)
    ensures ScanInv(m, todo - {k}, if m[k].active then out + [EntryOf(k, m[k])] else out)
  {
    ActiveAmongStep(m, todo, k);
  }

  // ---- the wire form ----

  type EntryFields = (seq<byte>, (seq<byte>, (seq<seq<byte>>, (byte, (byte, byte)))))
  type HeaderFields = (nat, (nat, seq<byte>))

  function ToEntry(t: EntryFields): Entry { Entry(t.0, t.1.0, t.1.1.0, t.1.1.1.0, t.1.1.1.1.0, t.1.1.1.1.1) }

  function FromEntry(e: Entry): EntryFields {
    (e.account, (e.hpkePk, (e.models, (e.tierFlags, (e.loadBucket, e.freshnessBucket)))))
  }

  function EntryCodec(utf8: seq<byte> -> bool): Codec<Entry> {
    View(Pair(Raw(32), Pair(Vec8(), Pair(Many(Text(utf8)), Pair(U8(), Pair(U8(), U8()))))), ToEntry, FromEntry)
  }

  function ToHeader(t: HeaderFields): Header { Header(t.0, t.1.0, t.1.1) }

  function FromHeader(h: Header): HeaderFields { (h.epoch, (h.issuedAtH, h.issuerKeyId)) }

  function HeaderCodec(): Codec<Header> { View(Pair(U64(), Pair(U32(), Raw(32))), ToHeader, FromHeader) }

  function ToBody(t: (Header, seq<Entry>)): Body { Body(t.0, t.1) }

  function FromBody(b: Body): (Header, seq<Entry>) { (b.header, b.hosts) }

  function BodyCodec(utf8: seq<byte> -> bool): Codec<Body> {
    View(Pair(HeaderCodec(), Many(EntryCodec(utf8))), ToBody, FromBody)
  }

  lemma EntryLawful(utf8: seq<byte> -> bool)
    ensures Lawful(EntryCodec(utf8))
  {
    U8Lawful();
    RawLawful(32);
    TextLawful(utf8);
    ManyLawful(Text(utf8));
    PairLawful(U8(), U8());
    var small := Pair(U8(), Pair(U8(), U8()));
    PairLawful(U8(), Pair(U8(), U8()));
    PairLawful(Many(Text(utf8)), small);
    PairLawful(Vec8(), Pair(Many(Text(utf8)), small));
    PairLawful(Raw(32), Pair(Vec8(), Pair(Many(Text(utf8)), small)));
    ViewLawful(Pair(Raw(32), Pair(Vec8(), Pair(Many(Text(utf8)), small))), ToEntry, FromEntry);
  }

  lemma HeaderLawful()
    ensures Lawful(HeaderCodec())
  {
    VarintLawful(10, 1);
    VarintLawful(5, 15);
    RawLawful(32);
    PairLawful(U32(), Raw(32));
    PairLawful(U64(), Pair(U32(), Raw(32)));
    ViewLawful(Pair(U64(), Pair(U32(), Raw(32))), ToHeader, FromHeader);
  }

  lemma BodyLawful(utf8: seq<byte> -> bool)
    ensures Lawful(BodyCodec(utf8))
  {
    HeaderLawful();
    EntryLawful(utf8);
    ManyLawful(EntryCodec(utf8));
    PairLawful(HeaderCodec(), Many(EntryCodec(utf8)));
    ViewLawful(Pair(HeaderCodec(), Many(EntryCodec(utf8))), ToBody, FromBody);
  }

  // ---- the bytes, field by field ----

  function TextList(models: seq<seq<byte>>): seq<byte> {
    if models == [] then [] else LengthPrefixed(models[0]) + TextList(models[1..])
  }

  function EntryBytes(e: Entry): seq<byte> {
    e.account + (LengthPrefixed(e.hpkePk) + (EncodeVarint(|e.models|) + TextList(e.models)
      + ([e.tierFlags] + ([e.loadBucket] + [e.freshnessBucket]))))
  }

  function EntryList(hosts: seq<Entry>): seq<byte> {
    if hosts == [] then [] else EntryBytes(hosts[0]) + EntryList(hosts[1..])
  }

  lemma {:induction false} TextListLayout(utf8: seq<byte> -> bool, models: seq<seq<byte>>)
    ensures EncodeAll(Text(utf8), models) == TextList(models)
  {
    if models != [] {
      VectorLayout(utf8, models[0]);
      TextListLayout(utf8, models[1..]);
    }
  }

  lemma EntryLayout(utf8: seq<byte> -> bool, e: Entry)
    ensures EntryCodec(utf8).enc(e) == EntryBytes(e)
  {
    VectorLayout(utf8, e.hpkePk);
    TextListLayout(utf8, e.models);
    var (account, (pk, (models, (tier, (load, age))))) := FromEntry(e);
    var small := Pair(U8(), Pair(U8(), U8()));
    assert small.enc((tier, (load, age))) == [tier] + ([load] + [age]);
    assert Many(Text(utf8)).enc(models) == EncodeVarint(|models|) + TextList(models);
    assert Pair(Many(Text(utf8)), small).enc((models, (tier, (load, age))))
      == Many(Text(utf8)).enc(models) + small.enc((tier, (load, age)));
    assert Pair(Vec8(), Pair(Many(Text(utf8)), small)).enc((pk, (models, (tier, (load, age)))))
      == LengthPrefixed(pk) + Pair(Many(Text(utf8)), small).enc((models, (tier, (load, age))));
  }

  lemma {:induction false} EntryListLayout(utf8: seq<byte> -> bool, hosts: seq<Entry>)
    ensures EncodeAll(EntryCodec(utf8), hosts) == EntryList(hosts)
  {
    if hosts != [] {
      EntryLayout(utf8, hosts[0]);
      EntryListLayout(utf8, hosts[1..]);
    }
  }

  /** A snapshot body on the wire is its fields in declaration order. */
  lemma BodyLayout(utf8: seq<byte> -> bool, b: Body)
    ensures BodyCodec(utf8).enc(b)
         == (EncodeVarint(b.header.epoch) + (EncodeVarint(b.header.issuedAtH) + b.header.issuerKeyId))
            + (EncodeVarint(|b.hosts|) + EntryList(b.hosts))
  {
    EntryListLayout(utf8, b.hosts);
    HeaderLayout(b.header);
    var (header, hosts) := FromBody(b);
    assert Many(EntryCodec(utf8)).enc(hosts) == EncodeVarint(|hosts|) + EntryList(hosts);
    assert Pair(HeaderCodec(), Many(EntryCodec(utf8))).enc((header, hosts))
      == HeaderCodec().enc(header) + Many(EntryCodec(utf8)).enc(hosts);
  }

  lemma HeaderLayout(h: Header)
    ensures HeaderCodec().enc(h) == EncodeVarint(h.epoch) + (EncodeVarint(h.issuedAtH) + h.issuerKeyId)
  {
    var (epoch, (hour, id)) := FromHeader(h);
    assert Pair(U32(), Raw(32)).enc((hour, id)) == EncodeVarint(hour) + id;
    assert Pair(U64(), Pair(U32(), Raw(32))).enc((epoch, (hour, id)))
      == EncodeVarint(epoch) + Pair(U32(), Raw(32)).enc((hour, id));
  }

  // ---- the Rust types' own limits ----

  ghost predicate HeaderTyped(h: Header) {
    h.epoch <= U64_MAX && h.issuedAtH <= U32_MAX && |h.issuerKeyId| == 32
  }

  ghost predicate RowTyped(utf8: seq<byte> -> bool, row: HostRow) {
    && |row.hpkePk| <= U64_MAX
    && |row.models| <= U64_MAX
    && forall i :: 0 <= i < |row.models| ==> |row.models[i]| <= U64_MAX && utf8(row.models[i])
  }

  ghost predicate TableTyped(utf8: seq<byte> -> bool, m: Hosts) {
    |m| <= U64_MAX && forall k :: k in m ==> RowTyped(utf8, m[k])
  }

  lemma EntryOk(utf8: seq<byte> -> bool, k: Key, row: HostRow)
    requires RowTyped(utf8, row)
    ensures EntryCodec(utf8).ok(EntryOf(k, row))
  {
    PlainLimits(utf8);
    var (account, (pk, (models, flags))) := FromEntry(EntryOf(k, row));
    assert Many(Text(utf8)).ok(models);
    var small := Pair(U8(), Pair(U8(), U8()));
    assert small.ok(flags);
    assert Pair(Many(Text(utf8)), small).ok((models, flags));
    assert Pair(Vec8(), Pair(Many(Text(utf8)), small)).ok((pk, (models, flags)));
    assert Raw(32).ok(account);
  }

  lemma HeaderOk(h: Header)
    requires HeaderTyped(h)
    ensures HeaderCodec().ok(h)
  {
    IntegerWidths();
    var (epoch, (hour, id)) := FromHeader(h);
    assert U64().ok(epoch) && U32().ok(hour) && Raw(32).ok(id);
    assert Pair(U32(), Raw(32)).ok((hour, id));
  }

  lemma ManyEntriesOk(utf8: seq<byte> -> bool, hosts: seq<Entry>)
    requires |hosts| <= U64_MAX && forall i :: 0 <= i < |hosts| ==> EntryCodec(utf8).ok(hosts[i])
    ensures Many(EntryCodec(utf8)).ok(hosts)
  {
    IntegerWidths();
    assert U64().ok(|hosts|);
  }

  lemma {:induction false} ListingShort(m: Hosts, todo: set<Key>)
    requires todo <= m.Keys
    ensures |ActiveAmong(m, todo)| <= |todo|
    decreases |todo|
  {
    if todo != {} {
      FirstExists(todo);
      var k :| k in todo && IsFirst(todo, k);
      ActiveAmongStep(m, todo, k);
      ListingShort(m, todo - {k});
    }
  }

  lemma BodyOk(utf8: seq<byte> -> bool, m: Hosts, header: Header)
    requires TableTyped(utf8, m) && HeaderTyped(header)
    ensures BodyCodec(utf8).ok(Body(header, Listing(m)))
  {
    var hosts := Listing(m);
    ListingShort(m, m.Keys);
    ActiveAmongLists(m, m.Keys);
    forall i | 0 <= i < |hosts| ensures EntryCodec(utf8).ok(hosts[i]) {
      assert hosts[i] in hosts;
      var k :| k in m && hosts[i] == EntryOf(k, m[k]);
      EntryOk(utf8, k, m[k]);
    }
    ManyEntriesOk(utf8, hosts);
    HeaderOk(header);
    assert Pair(HeaderCodec(), Many(EntryCodec(utf8))).ok((header, hosts));
    assert FromBody(Body(header, hosts)) == (header, hosts);
  }

  // ---- padding ----

  function Zeros(n: nat): seq<byte> { seq(n, _ => 0) }

  function Padded(enc: seq<byte>): (out: seq<byte>)
    requires LEN_PREFIX + |enc| <= BUCKET
    ensures |out| == BUCKET
  {
    LittleEndian(|enc|, LEN_PREFIX) + enc + Zeros(BUCKET - LEN_PREFIX - |enc|)
  }

  /** Strip the padding by the length prefix, if the length fits. */
  function Unpad(s: seq<byte>): Option<seq<byte>> {
    if |s| < LEN_PREFIX then None
    else
      var end := LEN_PREFIX + FromLittleEndian(s[..LEN_PREFIX]);
      if end > |s| then None else Some(s[LEN_PREFIX..end])
  }

  lemma UnpadPadded(enc: seq<byte>)
    requires LEN_PREFIX + |enc| <= BUCKET
    ensures Unpad(Padded(enc)) == Some(enc)
  {
    Pow2Small();
    Pow2Add(8, 8);
    Pow2Mono(16, 8 * LEN_PREFIX);
    LittleEndianRoundTrip(|enc|, LEN_PREFIX);
    assert Padded(enc)[..LEN_PREFIX] == LittleEndian(|enc|, LEN_PREFIX);
    assert Padded(enc)[LEN_PREFIX..LEN_PREFIX + |enc|] == enc;
  }

  lemma PrefixBytes(n: nat)
    requires n < 65536
    ensures LittleEndian(n, 4) == [n % 256, n / 256 % 256, 0, 0]
  {
    var bs := LittleEndian(n, 4);
    LittleEndianDigit(n, 4, 0);
    LittleEndianDigit(n, 4, 1);
    LittleEndianDigit(n, 4, 2);
    LittleEndianDigit(n, 4, 3);
    var high := n / 256;
    assert Shifted(n, 1) == Shifted(high, 0) == high;
    assert Shifted(n, 2) == Shifted(high, 1) == Shifted(high / 256, 0) == 0;
    assert Shifted(n, 3) == Shifted(high, 2) == Shifted(high / 256, 1) == Shifted(high / 256 / 256, 0) == 0;
  }

  /** The padded bytes in plain terms: four bytes of length, least significant first, the body, and zeros. */
  predicate Layout(out: seq<byte>, enc: seq<byte>) {
    && |out| == 65536 && 4 + |enc| <= 65536
    && out[0] == |enc| % 256 && out[1] == |enc| / 256 % 256 && out[2] == 0 && out[3] == 0
    && (forall i :: 0 <= i < |enc| ==> out[4 + i] == enc[i])
    && (forall i :: 4 + |enc| <= i < 65536 ==> out[i] == 0)
  }

  lemma PaddedLayout(enc: seq<byte>)
    requires LEN_PREFIX + |enc| <= BUCKET
    ensures Layout(Padded(enc), enc)
  {
    PrefixBytes(|enc|);
    var zeros := Zeros(BUCKET - LEN_PREFIX - |enc|);
    var out := [|enc| % 256, |enc| / 256 % 256, 0, 0] + enc + zeros;
    assert Padded(enc) == out;
    forall i | 4 + |enc| <= i < 65536 ensures out[i] == 0 {
      assert out[i] == zeros[i - 4 - |enc|];
    }
  }

  /** Fill a zeroed bucket in place; fail exactly when the body does not fit. */
  method EncodeAndPad(utf8: seq<byte> -> bool, body: Body) returns (out: Option<array<byte>>)
    ensures out.Some? <==> |BodyCodec(utf8).enc(body)| <= 65532
    ensures out.Some? ==> out.value[..] == Padded(BodyCodec(utf8).enc(body))
    ensures out.Some? ==> Layout(out.value[..], BodyCodec(utf8).enc(body))
  {
    var enc := BodyCodec(utf8).enc(body);
    if LEN_PREFIX + |enc| > BUCKET { return None; }
    var len := LittleEndian(|enc|, LEN_PREFIX);
    var buf := new byte[BUCKET](_ => 0);
    forall i | 0 <= i < LEN_PREFIX { buf[i] := len[i]; }
    forall i | 0 <= i < |enc| { buf[LEN_PREFIX + i] := enc[i]; }
    assert buf[..] == Padded(enc);
    PaddedLayout(enc);
    return Some(buf);
  }

  // ---- publishing and verifying ----

  method Publish(utf8: seq<byte> -> bool, m: Hosts, header: Header, sign: seq<byte> -> seq<byte>)
    returns (r: Option<Response>)
    ensures r.Some? <==> |BodyCodec(utf8).enc(Body(header, Listing(m)))| <= 65532
    ensures r.Some? ==> |r.value.body| == 65536
    ensures r.Some? ==> r.value == Published(utf8, m, header, sign)
  {
    var body := Build(m, header);
    var padded := EncodeAndPad(utf8, body);
    if padded.None? { return None; }
    return Some(Response(padded.value[..], sign(padded.value[..])));
  }

  ghost function Published(utf8: seq<byte> -> bool, m: Hosts, header: Header, sign: seq<byte> -> seq<byte>): Response
    requires |BodyCodec(utf8).enc(Body(header, Listing(m)))| <= 65532
  {
    var padded := Padded(BodyCodec(utf8).enc(Body(header, Listing(m))));
    Response(padded, sign(padded))
  }

  /** `snapshot_verify`: `ed` is Ed25519 under the registry key, on 64-byte signatures. */
  predicate SignatureOk(ed: (seq<byte>, seq<byte>) -> bool, bytes: seq<byte>, sig: seq<byte>) {
    |sig| == 64 && ed(bytes, sig)
  }

  /** The broker's own verifier. */
  function BrokerVerify(utf8: seq<byte> -> bool, ed: (seq<byte>, seq<byte>) -> bool, r: Response): Option<Body> {
    if |r.sig| != 64 || |r.body| != 65536 then None
    else if !SignatureOk(ed, r.body, r.sig) then None
    else match Unpad(r.body)
      case None => None
      case Some(enc) =>
        match BodyCodec(utf8).dec(enc)
        case None => None
        case Some((body, _)) => Some(body)
  }

  /** The client's verifier: checks in another order, with its own error kinds. */
  function ClientVerify(utf8: seq<byte> -> bool, ed: (seq<byte>, seq<byte>) -> bool, r: Response): ClientResult<Body> {
    if |r.body| != BUCKET then ProtocolError
    else if !SignatureOk(ed, r.body, r.sig) then CryptoError
    else
      var end := LEN_PREFIX + FromLittleEndian(r.body[..4]);
      if end > |r.body| then ProtocolError
      else match BodyCodec(utf8).dec(r.body[LEN_PREFIX..end])
        case None => ProtocolError
        case Some((body, _)) => Ok(body)
  }

  /** Both verifiers accept the same responses and read the same body. */
  lemma VerifiersAgree(utf8: seq<byte> -> bool, ed: (seq<byte>, seq<byte>) -> bool, r: Response, body: Body)
    ensures BrokerVerify(utf8, ed, r) == Some(body) <==> ClientVerify(utf8, ed, r) == Ok(body)
  {
  }

  /**
   * Exactly what a client accepts: 65536 bytes under a genuine 64-byte signature of the registry key, whose
   * length prefix points inside them at an encoding of the body.
   */
  lemma AcceptedExactly(utf8: seq<byte> -> bool, ed: (seq<byte>, seq<byte>) -> bool, r: Response, body: Body)
    ensures ClientVerify(utf8, ed, r) == Ok(body) <==>
      && |r.body| == 65536 && |r.sig| == 64 && ed(r.body, r.sig)
      && var end := 4 + FromLittleEndian(r.body[..4]);
         end <= 65536 && BodyCodec(utf8).dec(r.body[4..end]).Some?
         && BodyCodec(utf8).dec(r.body[4..end]).value.0 == body
  {}

  ghost predicate KeyPair(sign: seq<byte> -> seq<byte>, ed: (seq<byte>, seq<byte>) -> bool) {
    forall b :: |sign(b)| == 64 && ed(b, sign(b))
  }

  lemma PublishedVerifies(utf8: seq<byte> -> bool, m: Hosts, header: Header,
                          sign: seq<byte> -> seq<byte>, ed: (seq<byte>, seq<byte>) -> bool)
    requires TableTyped(utf8, m) && HeaderTyped(header) && KeyPair(sign, ed)
    requires |BodyCodec(utf8).enc(Body(header, Listing(m)))| <= 65532
    ensures ClientVerify(utf8, ed, Published(utf8, m, header, sign)) == Ok(Body(header, Listing(m)))
    ensures BrokerVerify(utf8, ed, Published(utf8, m, header, sign)) == Some(Body(header, Listing(m)))
  {
    var body := Body(header, Listing(m));
    var enc := BodyCodec(utf8).enc(body);
    BodyLawful(utf8);
    BodyOk(utf8, m, header);
    DecodesItself(BodyCodec(utf8), body);
    UnpadPadded(enc);
  }

  // ---- eviction to client view ----

  lemma SweptDescribes(cfg: Policy, now: nat, m: Hosts, e: Entry)
    requires now <= U64_MAX
    ensures var swept := EvictTxn(cfg, now, m);
      Describes(swept, swept.Keys, e) <==>
        exists k :: k in m && m[k].active && now - m[k].lastHb <= 3 * cfg.interval && e == EntryOf(k, m[k])
  {
    var swept := EvictTxn(cfg, now, m);
    forall k | k in m
      ensures swept[k].active <==> m[k].active && now - m[k].lastHb <= 3 * cfg.interval
      ensures swept[k].active ==> swept[k] == m[k]
    {
      ThresholdExact(cfg, now, m[k]);
    }
    if Describes(swept, swept.Keys, e) {
      var k :| k in swept && swept[k].active && e == EntryOf(k, swept[k]);
      assert k in m && m[k].active;
    }
    if k :| k in m && m[k].active && now - m[k].lastHb <= 3 * cfg.interval && e == EntryOf(k, m[k]) {
      assert k in swept.Keys && swept[k].active;
    }
  }

  lemma SweptTyped(utf8: seq<byte> -> bool, cfg: Policy, now: nat, m: Hosts)
    requires TableTyped(utf8, m)
    ensures TableTyped(utf8, EvictTxn(cfg, now, m))
  {
    var swept := EvictTxn(cfg, now, m);
    assert swept.Keys == m.Keys && |swept| == |swept.Keys| && |m| == |m.Keys|;
    forall k | k in swept ensures RowTyped(utf8, swept[k]) {
      assert RowTyped(utf8, m[k]);
      assert swept[k].models == m[k].models && swept[k].hpkePk == m[k].hpkePk;
    }
  }

  /**
   * From sweep to client: after a sweep at `now`, what every client recovers from the published
   * bytes is exactly the ACTIVE hosts heard within three intervals, in ascending account order.
   */
  lemma ClientSeesFreshActiveHosts(utf8: seq<byte> -> bool, cfg: Policy, now: nat, m: Hosts, header: Header,
                                   sign: seq<byte> -> seq<byte>, ed: (seq<byte>, seq<byte>) -> bool)
    requires TableTyped(utf8, m) && HeaderTyped(header) && KeyPair(sign, ed) && now <= U64_MAX
    requires |BodyCodec(utf8).enc(Body(header, Listing(EvictTxn(cfg, now, m))))| <= 65532
    ensures var seen := ClientVerify(utf8, ed, Published(utf8, EvictTxn(cfg, now, m), header, sign));
      && seen.Ok? && seen.value.header == header && Ascending(seen.value.hosts)
      && forall e :: e in seen.value.hosts <==>
           exists k :: k in m && m[k].active && now - m[k].lastHb <= 3 * cfg.interval && Shows(e, k, m[k])
  {
    var swept := EvictTxn(cfg, now, m);
    SweptTyped(utf8, cfg, now, m);
    PublishedVerifies(utf8, swept, header, sign, ed);
    ActiveAmongLists(swept, swept.Keys);
    forall e ensures e in Listing(swept) <==>
      exists k :: k in m && m[k].active && now - m[k].lastHb <= 3 * cfg.interval && Shows(e, k, m[k])
    {
      SweptDescribes(cfg, now, m, e);
      forall k | k in m ensures Shows(e, k, m[k]) <==> e == EntryOf(k, m[k]) { EntryShows(e, k, m[k]); }
    }
  }

  // ---- without a sweep ----

  /** Heard within three intervals. */
  predicate FreshAt(cfg: Policy, now: nat, row: HostRow) { now - row.lastHb <= 3 * cfg.interval }

  /** Every host the client recovers was heard within three intervals. */
  ghost predicate AllSeenFresh(cfg: Policy, now: nat, m: Hosts, seen: seq<Entry>) {
    forall e, k :: e in seen && k in m && e.account == k ==> FreshAt(cfg, now, m[k])
  }

  /**
   * Publishing alone: what the client recovers from a table is all fresh if and only if the table
   * holds no ACTIVE row that a sweep would demote.
   */
  lemma SeenFreshIff(utf8: seq<byte> -> bool, cfg: Policy, now: nat, m: Hosts, header: Header,
                     sign: seq<byte> -> seq<byte>, ed: (seq<byte>, seq<byte>) -> bool)
    requires TableTyped(utf8, m) && HeaderTyped(header) && KeyPair(sign, ed) && now <= U64_MAX
    requires |BodyCodec(utf8).enc(Body(header, Listing(m)))| <= 65532
    ensures var seen := ClientVerify(utf8, ed, Published(utf8, m, header, sign));
      && seen.Ok?
      && (AllSeenFresh(cfg, now, m, seen.value.hosts) <==>
            forall k :: k in m && m[k].active ==> !Stale(cfg, now, m[k]))
  {
    PublishedVerifies(utf8, m, header, sign, ed);
    ActiveAmongLists(m, m.Keys);
    forall k | k in m ensures Stale(cfg, now, m[k]) <==> !FreshAt(cfg, now, m[k]) {
      ThresholdExact(cfg, now, m[k]);
    }
    forall k | k in m && m[k].active ensures EntryOf(k, m[k]) in Listing(m) {
      assert Describes(m, m.Keys, EntryOf(k, m[k]));
    }
    forall e, k | e in Listing(m) && k in m && e.account == k ensures m[k].active {
      assert Describes(m, m.Keys, e);
    }
    if AllSeenFresh(cfg, now, m, Listing(m)) {
      forall k | k in m && m[k].active ensures !Stale(cfg, now, m[k]) {
        assert EntryOf(k, m[k]) in Listing(m) && EntryOf(k, m[k]).account == k;
      }
    }
  }

  /**
   * At `now`, on a 64-bit clock and after an ordered run without sweeps, host `k` is ACTIVE and in the
   * published listing although it has been silent for more than three intervals.
   */
  ghost predicate SilentButListed(cfg: Policy, k: Key, run: seq<Timed>, now: nat) {
    var m := Play(cfg, run).hosts;
    && Ordered(run)
    && (forall i :: 0 <= i < |run| ==> !run[i].event.Sweep? && run[i].now <= now)
    && now <= U64_MAX
    && k in m && m[k].active && now - m[k].lastHb > 3 * cfg.interval
    && EntryOf(k, m[k]) in Listing(m)
  }

  /** There is time on the clock to become ACTIVE and then to be silent for three intervals. */
  predicate ClockReaches(cfg: Policy) {
    Waited(Needed(cfg), cfg.interval) + 3 * cfg.interval + 1 <= U64_MAX
  }

  /** Any host, under any descriptor, can stay listed after falling silent. */
  lemma SilentHostStaysListed(cfg: Policy, k: Key, d: Descriptor) returns (run: seq<Timed>, now: nat)
    requires Fits(cfg) && ClockReaches(cfg)
    ensures OnlyHeard(run, k, d) && SilentButListed(cfg, k, run, now)
  {
    var n := Needed(cfg);
    run := HeardOften(cfg, k, d, n);
    now := Waited(n, cfg.interval) + 3 * cfg.interval + 1;
    var m := Play(cfg, run).hosts;
    LastIsLatest(run, now);
    ActiveAmongLists(m, m.Keys);
    assert Describes(m, m.Keys, EntryOf(k, m[k]));
  }

  /** Exactly when a silent host can stay listed, for every host and every descriptor it may register. */
  lemma SilentHostIff(cfg: Policy, k: Key, d: Descriptor)
    requires Fits(cfg)
    ensures (exists run, now :: OnlyHeard(run, k, d) && SilentButListed(cfg, k, run, now)) <==> ClockReaches(cfg)
    ensures (exists run, now :: SilentButListed(cfg, k, run, now)) <==> ClockReaches(cfg)
  {
    if ClockReaches(cfg) {
      var run, now := SilentHostStaysListed(cfg, k, d);
      assert OnlyHeard(run, k, d) && SilentButListed(cfg, k, run, now);
    }
    forall run, now | SilentButListed(cfg, k, run, now) ensures ClockReaches(cfg) {
      var h := Play(cfg, run);
      ActiveHasProgressAlways(cfg, run);
      AdmissionTakesTime(cfg, run);
      assert RowPaced(cfg, h.hosts[k], h.anchor[k], h.clock);
      WaitedMono(Needed(cfg), h.hosts[k].admitProgress, cfg.interval);
    }
  }

  lemma {:induction false} LastIsLatest(run: seq<Timed>, now: nat)
    requires run != [] && Ordered(run) && run[|run| - 1].now <= now
    ensures forall i :: 0 <= i < |run| ==> run[i].now <= now
    decreases |run|
  {
    if |run| > 1 {
      var pre := run[..|run| - 1];
      assert forall i :: 0 <= i < |pre| ==> pre[i] == run[i];
      assert run[|run| - 2].now <= run[|run| - 1].now;
      LastIsLatest(pre, now);
    }
  }
}
