/**
 * The positional wire codec: variable-length integers, length-prefixed sequences and tagged
 * options, no field names and no end marker; a decoder reads its own fields and ignores the rest.
 */
module Codec {
  import opened Prelude
  import opened Bytes

  type Decoded<T> = Option<(T, seq<byte>)>

  /** `ok` says which values of `T` the Rust type can hold. */
  datatype Codec<!T> = Codec(enc: T -> seq<byte>, dec: seq<byte> -> Decoded<T>, ok: T -> bool)

  /** Decoding inverts encoding, and leaves whatever follows. */
  ghost predicate RoundTrips<T(!new)>(c: Codec<T>) {
    forall x, rest :: c.ok(x) ==> c.dec(c.enc(x) + rest) == Some((x, rest))
  }

  /** A decoder that succeeded does not look at what follows. */
  ghost predicate IgnoresSuffix<T(!new)>(c: Codec<T>) {
    forall p, q :: c.dec(p).Some? ==> c.dec(p + q) == Some((c.dec(p).value.0, c.dec(p).value.1 + q))
  }

  ghost predicate Lawful<T(!new)>(c: Codec<T>) { RoundTrips(c) && IgnoresSuffix(c) }

  lemma DecodesItself<T(!new)>(c: Codec<T>, x: T)
    requires Lawful(c) && c.ok(x)
    ensures c.dec(c.enc(x)) == Some((x, []))
  {
    assert c.enc(x) + [] == c.enc(x);
  }

  /** No truncated encoding decodes. */
  lemma ProperPrefixRejected<T(!new)>(c: Codec<T>, x: T, p: seq<byte>)
    requires Lawful(c) && c.ok(x) && p < c.enc(x)
    ensures c.dec(p).None?
  {
    var q := c.enc(x)[|p|..];
    SuffixIsLeftOver(c, p, q);
    assert p + q == c.enc(x);
    DecodesItself(c, x);
  }

  lemma SuffixIsLeftOver<T(!new)>(c: Codec<T>, p: seq<byte>, q: seq<byte>)
    requires IgnoresSuffix(c)
    ensures c.dec(p).Some? ==> c.dec(p + q).Some? && |c.dec(p + q).value.1| >= |q|
  {}

  /** No two values share an encoding, and none is a prefix of another. */
  lemma PrefixFree<T(!new)>(c: Codec<T>, x: T, y: T)
    requires Lawful(c) && c.ok(x) && c.ok(y) && c.enc(x) <= c.enc(y)
    ensures x == y
  {
    DecodesItself(c, x);
    DecodesItself(c, y);
    if c.enc(x) != c.enc(y) {
      ProperPrefixRejected(c, y, c.enc(x));
    }
  }

  // ---- variable-length integers ----

  function EncodeVarint(n: nat): seq<byte> {
    if n < 128 then [n] else [128 + n % 128] + EncodeVarint(n / 128)
  }

  /** At most `k` bytes, the last of which is at most `lastMax`; padding with zero groups is accepted. */
  function DecodeVarint(b: seq<byte>, k: nat, lastMax: nat): Decoded<nat> {
    if k == 0 || b == [] then None
    else if b[0] < 128 then
      if k == 1 && b[0] > lastMax then None else Some((b[0], b[1..]))
    else match DecodeVarint(b[1..], k - 1, lastMax)
      case None => None
      case Some((n, rest)) => Some((b[0] - 128 + 128 * n, rest))
  }

  /** How many integers fit in `k` bytes. */
  function VarintRange(k: nat, lastMax: nat): nat {
    if k == 0 then 0 else if k == 1 then lastMax + 1 else 128 * VarintRange(k - 1, lastMax)
  }

  lemma {:induction false} VarintRoundTrip(n: nat, k: nat, lastMax: nat, rest: seq<byte>)
    requires lastMax < 128 && n < VarintRange(k, lastMax)
    ensures DecodeVarint(EncodeVarint(n) + rest, k, lastMax) == Some((n, rest))
    decreases k
  {
    var b := EncodeVarint(n) + rest;
    if n < 128 {
      assert b[1..] == rest;
    } else {
      VarintRoundTrip(n / 128, k - 1, lastMax, rest);
      assert b[1..] == EncodeVarint(n / 128) + rest;
    }
  }

  lemma {:induction false} VarintIgnoresSuffix(p: seq<byte>, q: seq<byte>, k: nat, lastMax: nat)
    requires DecodeVarint(p, k, lastMax).Some?
    ensures DecodeVarint(p + q, k, lastMax)
         == Some((DecodeVarint(p, k, lastMax).value.0, DecodeVarint(p, k, lastMax).value.1 + q))
    decreases k
  {
    assert (p + q)[1..] == p[1..] + q;
    if p[0] >= 128 {
      VarintIgnoresSuffix(p[1..], q, k - 1, lastMax);
    }
  }

  /** A decoded integer fits its type. */
  lemma {:induction false} VarintInRange(b: seq<byte>, k: nat, lastMax: nat)
    requires lastMax < 128 && DecodeVarint(b, k, lastMax).Some?
    ensures DecodeVarint(b, k, lastMax).value.0 < VarintRange(k, lastMax)
    decreases k
  {
    if b[0] >= 128 {
      VarintInRange(b[1..], k - 1, lastMax);
    } else if k > 1 {
      RangeAtLeast(k, lastMax);
    }
  }

  lemma {:induction false} RangeAtLeast(k: nat, lastMax: nat)
    requires k > 1
    ensures VarintRange(k, lastMax) >= 128
  {
    if k > 2 { RangeAtLeast(k - 1, lastMax); }
  }

  /** The number a little-endian sequence of seven-bit groups stands for; all but the last are marked. */
  function GroupValue(bs: seq<byte>): nat {
    if bs == [] then 0 else bs[0] % 128 + 128 * GroupValue(bs[1..])
  }

  /** The encoding in plain terms: the shortest little-endian sequence of seven-bit groups. */
  lemma {:induction false} VarintLayout(n: nat)
    ensures var bs := EncodeVarint(n);
      && |bs| >= 1 && GroupValue(bs) == n
      && bs[|bs| - 1] < 128 && (|bs| > 1 ==> bs[|bs| - 1] > 0)
      && (forall i :: 0 <= i < |bs| - 1 ==> bs[i] >= 128)
  {
    if n >= 128 {
      VarintLayout(n / 128);
      var bs, rest := EncodeVarint(n), EncodeVarint(n / 128);
      assert bs[1..] == rest;
      assert forall i :: 0 < i < |bs| ==> bs[i] == rest[i - 1];
      assert |rest| == 1 ==> rest[0] == GroupValue(rest) by { assert rest[1..] == [] || |rest| > 1; }
    }
  }

  /** Zero groups at the end are tolerated: the decoder accepts what the encoder never writes. */
  lemma PaddedVarintAccepted(rest: seq<byte>)
    ensures DecodeVarint([0x80, 0x00] + rest, 10, 1) == Some((0, rest))
  {
    var b := [0x80, 0x00] + rest;
    assert b[1..] == [0x00] + rest && b[1..][1..] == rest;
  }

  function Varint(k: nat, lastMax: nat): Codec<nat> {
    Codec(n => EncodeVarint(n), b => DecodeVarint(b, k, lastMax), n => n < VarintRange(k, lastMax))
  }

  /** `u64` (and `usize`): ten bytes, one bit in the last. */
  function U64(): Codec<nat> { Varint(10, 1) }

  /** `u32`: five bytes, four bits in the last. */
  function U32(): Codec<nat> { Varint(5, 15) }

  lemma VarintLawful(k: nat, lastMax: nat)
    requires lastMax < 128
    ensures Lawful(Varint(k, lastMax))
  {
    var c := Varint(k, lastMax);
    forall x: nat, rest | c.ok(x) ensures c.dec(c.enc(x) + rest) == Some((x, rest)) {
      VarintRoundTrip(x, k, lastMax, rest);
    }
    forall p, q | c.dec(p).Some?
      ensures c.dec(p + q) == Some((c.dec(p).value.0, c.dec(p).value.1 + q)) {
      VarintIgnoresSuffix(p, q, k, lastMax);
    }
  }

  lemma IntegerWidths()
    ensures VarintRange(10, 1) == U64_MAX + 1
    ensures VarintRange(5, 15) == U32_MAX + 1
  {
    assert VarintRange(5, 1) == 2 * 128 * 128 * 128 * 128;
    assert VarintRange(10, 1) == 128 * 128 * 128 * 128 * 128 * VarintRange(5, 1);
  }

  // ---- raw bytes ----

  /** `[u8; n]`, and `u8` as `Raw(1)`. */
  function Raw(n: nat): Codec<seq<byte>> {
    Codec(x => x, b => if |b| < n then None else Some((b[..n], b[n..])), x => |x| == n)
  }

  lemma RawLawful(n: nat)
    ensures Lawful(Raw(n))
  {
    var c := Raw(n);
    forall x, rest | c.ok(x) ensures c.dec(c.enc(x) + rest) == Some((x, rest)) {
      assert (x + rest)[..n] == x && (x + rest)[n..] == rest;
    }
    forall p, q | c.dec(p).Some?
      ensures c.dec(p + q) == Some((c.dec(p).value.0, c.dec(p).value.1 + q)) {
      assert (p + q)[..n] == p[..n] && (p + q)[n..] == p[n..] + q;
    }
  }

  function U8(): Codec<byte> {
    Codec(x => [x], b => if b == [] then None else Some((b[0], b[1..])), x => true)
  }

  lemma U8Lawful()
    ensures Lawful(U8())
  {
    var c := U8();
    forall x, rest | c.ok(x) ensures c.dec(c.enc(x) + rest) == Some((x, rest)) {
      assert ([x] + rest)[1..] == rest;
    }
    forall p, q | c.dec(p).Some?
      ensures c.dec(p + q) == Some((c.dec(p).value.0, c.dec(p).value.1 + q)) {
      assert (p + q)[1..] == p[1..] + q;
    }
  }

  // ---- one field after another ----

  function PairDecode<A, B>(a: Codec<A>, b: Codec<B>, s: seq<byte>): Decoded<(A, B)> {
    match a.dec(s)
    case None => None
    case Some((x, r)) =>
      match b.dec(r)
      case None => None
      case Some((y, r')) => Some(((x, y), r'))
  }

  function Pair<A, B>(a: Codec<A>, b: Codec<B>): Codec<(A, B)> {
    Codec((x: (A, B)) => a.enc(x.0) + b.enc(x.1), s => PairDecode(a, b, s), (x: (A, B)) => a.ok(x.0) && b.ok(x.1))
  }

  lemma PairLawful<A(!new), B(!new)>(a: Codec<A>, b: Codec<B>)
    requires Lawful(a) && Lawful(b)
    ensures Lawful(Pair(a, b))
  {
    var c := Pair(a, b);
    forall x: (A, B), rest | c.ok(x) ensures c.dec(c.enc(x) + rest) == Some((x, rest)) {
      assert c.enc(x) + rest == a.enc(x.0) + (b.enc(x.1) + rest);
    }
    forall p, q | c.dec(p).Some?
      ensures c.dec(p + q) == Some((c.dec(p).value.0, c.dec(p).value.1 + q)) {
      var r := a.dec(p).value.1;
      assert a.dec(p + q) == Some((a.dec(p).value.0, r + q));
      assert b.dec(r + q) == Some((b.dec(r).value.0, b.dec(r).value.1 + q));
    }
  }

  /**
   * Appending fields is compatible one way only.  A decoder of the old fields reads them off every
   * new document; a decoder of the new fields rejects every old document, as soon as what was
   * appended is not empty on the wire.
   */
  lemma AppendIsOneWay<A(!new), B(!new)>(a: Codec<A>, b: Codec<B>, x: A, y: B)
    requires Lawful(a) && a.ok(x) && b.dec([]).None?
    ensures a.dec(Pair(a, b).enc((x, y))) == Some((x, b.enc(y)))
    ensures Pair(a, b).dec(a.enc(x)).None?
  {
    DecodesItself(a, x);
  }

  // ---- options ----

  function OptDecode<T>(c: Codec<T>, s: seq<byte>): Decoded<Option<T>> {
    if s == [] then None
    else if s[0] == 0 then Some((None, s[1..]))
    else if s[0] != 1 then None
    else match c.dec(s[1..])
      case None => None
      case Some((x, r)) => Some((Some(x), r))
  }

  function Opt<T>(c: Codec<T>): Codec<Option<T>> {
    Codec((x: Option<T>) => if x.None? then [0] else [1] + c.enc(x.value),
          s => OptDecode(c, s),
          (x: Option<T>) => x.None? || c.ok(x.value))
  }

  lemma OptLawful<T(!new)>(c: Codec<T>)
    requires Lawful(c)
    ensures Lawful(Opt(c))
  {
    var o := Opt(c);
    forall x: Option<T>, rest | o.ok(x) ensures o.dec(o.enc(x) + rest) == Some((x, rest)) {
      if x.Some? {
        assert (o.enc(x) + rest)[1..] == c.enc(x.value) + rest;
      } else {
        assert (o.enc(x) + rest)[1..] == rest;
      }
    }
    forall p, q | o.dec(p).Some?
      ensures o.dec(p + q) == Some((o.dec(p).value.0, o.dec(p).value.1 + q)) {
      assert (p + q)[1..] == p[1..] + q;
    }
  }

  // ---- length-prefixed sequences ----

  function EncodeAll<T>(c: Codec<T>, xs: seq<T>): seq<byte> {
    if xs == [] then [] else c.enc(xs[0]) + EncodeAll(c, xs[1..])
  }

  function DecodeAll<T>(c: Codec<T>, n: nat, s: seq<byte>): Decoded<seq<T>> {
    if n == 0 then Some(([], s))
    else match c.dec(s)
      case None => None
      case Some((x, r)) =>
        match DecodeAll(c, n - 1, r)
        case None => None
        case Some((xs, r')) => Some(([x] + xs, r'))
  }

  lemma {:induction false} AllRoundTrip<T(!new)>(c: Codec<T>, xs: seq<T>, rest: seq<byte>)
    requires Lawful(c) && forall i :: 0 <= i < |xs| ==> c.ok(xs[i])
    ensures DecodeAll(c, |xs|, EncodeAll(c, xs) + rest) == Some((xs, rest))
  {
    if xs == [] {
      assert EncodeAll(c, xs) + rest == rest;
    } else {
      AllRoundTrip(c, xs[1..], rest);
      var tail := EncodeAll(c, xs[1..]) + rest;
      assert EncodeAll(c, xs) + rest == c.enc(xs[0]) + tail;
      assert c.dec(c.enc(xs[0]) + tail) == Some((xs[0], tail));
      assert [xs[0]] + xs[1..] == xs;
    }
  }

  lemma {:induction false} AllIgnoresSuffix<T(!new)>(c: Codec<T>, n: nat, p: seq<byte>, q: seq<byte>)
    requires Lawful(c) && DecodeAll(c, n, p).Some?
    ensures DecodeAll(c, n, p + q) == Some((DecodeAll(c, n, p).value.0, DecodeAll(c, n, p).value.1 + q))
  {
    if n > 0 {
      var r := c.dec(p).value.1;
      assert c.dec(p + q) == Some((c.dec(p).value.0, r + q));
      AllIgnoresSuffix(c, n - 1, r, q);
    }
  }

  function PrefixedDecode<T>(len: Codec<nat>, c: Codec<T>, s: seq<byte>): Decoded<seq<T>> {
    match len.dec(s)
    case None => None
    case Some((n, r)) => DecodeAll(c, n, r)
  }

  function Prefixed<T>(len: Codec<nat>, c: Codec<T>): Codec<seq<T>> {
    Codec((xs: seq<T>) => len.enc(|xs|) + EncodeAll(c, xs),
          s => PrefixedDecode(len, c, s),
          (xs: seq<T>) => len.ok(|xs|) && forall i :: 0 <= i < |xs| ==> c.ok(xs[i]))
  }

  lemma PrefixedLawful<T(!new)>(len: Codec<nat>, c: Codec<T>)
    requires Lawful(len) && Lawful(c)
    ensures Lawful(Prefixed(len, c))
  {
    var o := Prefixed(len, c);
    forall xs: seq<T>, rest | o.ok(xs) ensures o.dec(o.enc(xs) + rest) == Some((xs, rest)) {
      PrefixedRoundTrip(len, c, xs, rest);
    }
    forall p, q | o.dec(p).Some?
      ensures o.dec(p + q) == Some((o.dec(p).value.0, o.dec(p).value.1 + q)) {
      PrefixedIgnoresSuffix(len, c, p, q);
    }
  }

  lemma PrefixedRoundTrip<T(!new)>(len: Codec<nat>, c: Codec<T>, xs: seq<T>, rest: seq<byte>)
    requires Lawful(len) && Lawful(c) && len.ok(|xs|) && forall i :: 0 <= i < |xs| ==> c.ok(xs[i])
    ensures PrefixedDecode(len, c, len.enc(|xs|) + EncodeAll(c, xs) + rest) == Some((xs, rest))
  {
    AllRoundTrip(c, xs, rest);
    var tail := EncodeAll(c, xs) + rest;
    assert len.enc(|xs|) + EncodeAll(c, xs) + rest == len.enc(|xs|) + tail;
    assert len.dec(len.enc(|xs|) + tail) == Some((|xs|, tail));
  }

  lemma PrefixedIgnoresSuffix<T(!new)>(len: Codec<nat>, c: Codec<T>, p: seq<byte>, q: seq<byte>)
    requires Lawful(len) && Lawful(c) && PrefixedDecode(len, c, p).Some?
    ensures PrefixedDecode(len, c, p + q)
         == Some((PrefixedDecode(len, c, p).value.0, PrefixedDecode(len, c, p).value.1 + q))
  {
    var (n, r) := len.dec(p).value;
    assert len.dec(p + q) == Some((n, r + q));
    AllIgnoresSuffix(c, n, r, q);
  }

  /** `Vec<T>`. */
  function Many<T>(c: Codec<T>): Codec<seq<T>> { Prefixed(U64(), c) }

  lemma ManyLawful<T(!new)>(c: Codec<T>)
    requires Lawful(c)
    ensures Lawful(Many(c))
  {
    VarintLawful(10, 1);
    PrefixedLawful(U64(), c);
  }

  // ---- strings and records ----

  /** Keep the values that pass a test: `String` is a byte vector that is valid UTF-8. */
  function CheckedDecode<T>(c: Codec<T>, test: T -> bool, s: seq<byte>): Decoded<T> {
    match c.dec(s)
    case None => None
    case Some((x, r)) => if test(x) then Some((x, r)) else None
  }

  function Checked<T>(c: Codec<T>, test: T -> bool): Codec<T> {
    Codec(c.enc, s => CheckedDecode(c, test, s), x => c.ok(x) && test(x))
  }

  lemma CheckedLawful<T(!new)>(c: Codec<T>, test: T -> bool)
    requires Lawful(c)
    ensures Lawful(Checked(c, test))
  {
    var o := Checked(c, test);
    forall x, rest | o.ok(x) ensures o.dec(o.enc(x) + rest) == Some((x, rest)) {
      assert c.dec(c.enc(x) + rest) == Some((x, rest));
    }
    forall p, q | o.dec(p).Some?
      ensures o.dec(p + q) == Some((o.dec(p).value.0, o.dec(p).value.1 + q)) {
      assert c.dec(p + q) == Some((c.dec(p).value.0, c.dec(p).value.1 + q));
    }
  }

  function ViewDecode<A, B>(c: Codec<A>, to: A -> B, s: seq<byte>): Decoded<B> {
    match c.dec(s)
    case None => None
    case Some((x, r)) => Some((to(x), r))
  }

  /** A record is the tuple of its fields. */
  function View<A, B>(c: Codec<A>, to: A -> B, from: B -> A): Codec<B> {
    Codec((y: B) => c.enc(from(y)), s => ViewDecode(c, to, s), (y: B) => c.ok(from(y)))
  }

  lemma ViewLawful<A(!new), B(!new)>(c: Codec<A>, to: A -> B, from: B -> A)
    requires Lawful(c) && forall y :: to(from(y)) == y
    ensures Lawful(View(c, to, from))
  {
    var o := View(c, to, from);
    forall y: B, rest | o.ok(y) ensures o.dec(o.enc(y) + rest) == Some((y, rest)) {
      assert c.dec(c.enc(from(y)) + rest) == Some((from(y), rest));
    }
    forall p, q | o.dec(p).Some?
      ensures o.dec(p + q) == Some((o.dec(p).value.0, o.dec(p).value.1 + q)) {
      assert c.dec(p + q) == Some((c.dec(p).value.0, c.dec(p).value.1 + q));
    }
  }

  function Vec8(): Codec<seq<byte>> { Many(U8()) }

  function Text(utf8: seq<byte> -> bool): Codec<seq<byte>> { Checked(Vec8(), utf8) }

  lemma TextLawful(utf8: seq<byte> -> bool)
    ensures Lawful(Vec8()) && Lawful(Text(utf8))
  {
    U8Lawful();
    ManyLawful(U8());
    CheckedLawful(Vec8(), utf8);
  }

  /** A byte vector or a string on the wire. */
  function LengthPrefixed(v: seq<byte>): seq<byte> { EncodeVarint(|v|) + v }

  lemma {:induction false} BytesAsTheyAre(v: seq<byte>)
    ensures EncodeAll(U8(), v) == v
  {
    if v != [] {
      BytesAsTheyAre(v[1..]);
      assert v == [v[0]] + v[1..];
    }
  }

  lemma VectorLayout(utf8: seq<byte> -> bool, v: seq<byte>)
    ensures Vec8().enc(v) == LengthPrefixed(v) && Text(utf8).enc(v) == LengthPrefixed(v)
  {
    BytesAsTheyAre(v);
  }

  /** The limits in plain terms. */
  lemma PlainLimits(utf8: seq<byte> -> bool)
    ensures forall n: nat :: U64().ok(n) <==> n <= U64_MAX
    ensures forall n: nat :: U32().ok(n) <==> n <= U32_MAX
    ensures forall v :: Vec8().ok(v) <==> |v| <= U64_MAX
    ensures forall v :: Text(utf8).ok(v) <==> |v| <= U64_MAX && utf8(v)
  {
    IntegerWidths();
  }
}
