/** Leading-zero-bit proof of work over an opaque digest. */
module ProofOfWork {
  import opened Prelude
  import opened Bytes

  /** The digest read as a big-endian number. */
  function BigEndian(h: seq<byte>): nat {
    if h == [] then 0 else h[0] * Pow2(8 * (|h| - 1)) + BigEndian(h[1..])
  }

  /** `u8::leading_zeros`. */
  function ByteZeros(b: byte): (z: nat)
    ensures z <= 8
  {
    if b >= 128 then 0 else if b >= 64 then 1 else if b >= 32 then 2 else if b >= 16 then 3
    else if b >= 8 then 4 else if b >= 4 then 5 else if b >= 2 then 6 else if b >= 1 then 7 else 8
  }

  function ZeroBits(h: seq<byte>): nat {
    if h == [] then 0 else if h[0] == 0 then 8 + ZeroBits(h[1..]) else ByteZeros(h[0])
  }

  lemma ByteZerosMeaning(b: byte, d: nat)
    requires d <= 8
    ensures ByteZeros(b) >= d <==> b < Pow2(8 - d)
  {
    Pow2Small();
  }

  /** A leading digit decides a comparison against a multiple of its weight. */
  lemma DigitDecides(digit: nat, weight: nat, rest: nat, k: nat)
    requires rest < weight
    ensures digit * weight + rest < k * weight <==> digit < k
  {
    if digit < k {
      assert (digit + 1) * weight <= k * weight;
      assert (digit + 1) * weight == digit * weight + weight;
    } else {
      assert digit * weight >= k * weight;
    }
  }

  lemma {:induction false} BigEndianBelow(h: seq<byte>)
    ensures BigEndian(h) < Pow2(8 * |h|)
  {
    if h != [] {
      var m := 8 * (|h| - 1);
      BigEndianBelow(h[1..]);
      Pow2Small();
      Pow2Add(8, m);
      DigitDecides(h[0], Pow2(m), BigEndian(h[1..]), 256);
    }
  }

  /** The bits test and the magnitude test agree on `d`. */
  ghost predicate Agrees(h: seq<byte>, d: nat)
    requires d <= 8 * |h|
  {
    ZeroBits(h) >= d <==> BigEndian(h) < Pow2(8 * |h| - d)
  }

  lemma ZeroFirstByte(h: seq<byte>, d: nat)
    requires h != [] && h[0] == 0 && d <= 8 * |h|
    requires d > 8 ==> Agrees(h[1..], d - 8)
    ensures Agrees(h, d)
  {
    BigEndianBelow(h[1..]);
    assert BigEndian(h) == BigEndian(h[1..]);
    if d <= 8 {
      Pow2Mono(8 * |h[1..]|, 8 * |h| - d);
    }
  }

  lemma DecidingFirstByte(h: seq<byte>, d: nat)
    requires h != [] && h[0] != 0 && d <= 8
    ensures Agrees(h, d)
  {
    var m, bound := 8 * (|h| - 1), Pow2(8 - d);
    BigEndianBelow(h[1..]);
    Pow2Add(8 - d, m);
    assert 8 * |h| - d == 8 - d + m;
    DigitDecides(h[0], Pow2(m), BigEndian(h[1..]), bound);
    ByteZerosMeaning(h[0], d);
  }

  lemma NonzeroFirstByte(h: seq<byte>, d: nat)
    requires h != [] && h[0] != 0 && 8 < d <= 8 * |h|
    ensures Agrees(h, d)
  {
    var m := 8 * (|h| - 1);
    Pow2Mono(8 * |h| - d, m);
    AtLeastWeight(h[0], Pow2(m));
  }

  lemma AtLeastWeight(digit: nat, weight: nat)
    requires digit >= 1
    ensures digit * weight >= weight
  {}

  /** At least `d` leading zero bits, exactly when the number is below 2^(8n - d). */
  lemma {:induction false} ZeroBitsMeaning(h: seq<byte>, d: nat)
    requires d <= 8 * |h|
    ensures ZeroBits(h) >= d <==> BigEndian(h) < Pow2(8 * |h| - d)
  {
    if h != [] {
      if h[0] == 0 {
        if d > 8 { ZeroBitsMeaning(h[1..], d - 8); }
        ZeroFirstByte(h, d);
      } else if d <= 8 {
        DecidingFirstByte(h, d);
      } else {
        NonzeroFirstByte(h, d);
      }
      assert Agrees(h, d);
    }
  }

  method LeadingZeroBits(h: seq<byte>) returns (bits: nat)
    ensures bits == ZeroBits(h)
  {
    bits := 0;
    var i := 0;
    while i < |h|
      invariant 0 <= i <= |h|
      invariant bits + ZeroBits(h[i..]) == ZeroBits(h)
    {
      assert h[i..][1..] == h[i + 1..];
      if h[i] == 0 {
        bits := bits + 8;
      } else {
        bits := bits + ByteZeros(h[i]);
        return;
      }
      i := i + 1;
    }
  }

  // ---- nonces ----

  /** Does nonce `n` meet the difficulty? `digest` maps the 8 nonce bytes to the hash. */
  predicate Solves(digest: seq<byte> -> seq<byte>, difficulty: nat, n: nat) {
    ZeroBits(digest(LittleEndian(n, 8))) >= difficulty
  }

  method PowVerify(digest: seq<byte> -> seq<byte>, nonce: seq<byte>, difficulty: nat) returns (ok: bool)
    ensures ok <==> ZeroBits(digest(nonce)) >= difficulty
    ensures difficulty <= 8 * |digest(nonce)| ==>
              (ok <==> BigEndian(digest(nonce)) < Pow2(8 * |digest(nonce)| - difficulty))
  {
    var h := digest(nonce);
    var bits := LeadingZeroBits(h);
    if difficulty <= 8 * |h| { ZeroBitsMeaning(h, difficulty); }
    return bits >= difficulty;
  }

  /** The scan returns the least nonce that verifies, and stops whenever there is one. */
  method PowSolve(digest: seq<byte> -> seq<byte>, difficulty: nat) returns (nonce: seq<byte>)
    requires exists n :: 0 <= n <= U64_MAX && Solves(digest, difficulty, n)
    ensures |nonce| == 8
    ensures exists n :: 0 <= n <= U64_MAX && nonce == LittleEndian(n, 8) && Solves(digest, difficulty, n)
              && forall m :: 0 <= m < n ==> !Solves(digest, difficulty, m)
  {
    ghost var goal :| 0 <= goal <= U64_MAX && Solves(digest, difficulty, goal);
    var n := 0;
    while true
      invariant 0 <= n <= goal
      invariant forall m :: 0 <= m < n ==> !Solves(digest, difficulty, m)
      decreases goal - n
    {
      nonce := LittleEndian(n, 8);
      var ok := PowVerify(digest, nonce, difficulty);
      if ok {
        assert Solves(digest, difficulty, n);
        return;
      }
      assert !Solves(digest, difficulty, n);
      n := if n == U64_MAX then 0 else n + 1;
    }
  }
}
