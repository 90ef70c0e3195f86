/** The Poly1305 authenticator (RFC 8439, section 2.5). */
module Poly1305 {
  import opened Prelude
  import opened Integers
  import opened ChaCha20

  const PRIME: nat := 0x3_FFFF_FFFF_FFFF_FFFF_FFFF_FFFF_FFFF_FFFB

  const CLAMP: nat := 0x0FFF_FFFC_0FFF_FFFC_0FFF_FFFC_0FFF_FFFF

  const MASK128: nat := 0xFFFF_FFFF_FFFF_FFFF_FFFF_FFFF_FFFF_FFFF

  lemma Constants()
    ensures PRIME == Pow2(130) - 5
    ensures MASK128 == Pow2(128) - 1
  {
    hide Pow2;
    Pow2Values();
    Pow2Add(32, 32);
    Pow2Add(64, 64);
    Pow2Add(128, 2);
    assert Pow2(2) == 4 by {
      Pow2Small();
    }
  }

  lemma Pow2Small()
    ensures Pow2(2) == 4
  {
    assert Pow2(1) == 2;
  }

  /** One number a 16-byte block, with a one byte behind the block. */
  function Coefficients(m: seq<byte>): (r: seq<nat>)
    ensures r == [] <==> m == []
  {
    if m == [] then []
    else if |m| <= 16 then [FromBytes(m + [1])]
    else [FromBytes(m[..16] + [1])] + Coefficients(m[16..])
  }

  function Power(r: nat, n: nat): nat {
    if n == 0 then 1 else r * Power(r, n - 1)
  }

  /** c1 r^q + c2 r^(q-1) + ... + cq r. */
  function Polynomial(cs: seq<nat>, r: nat): nat {
    if cs == [] then 0 else cs[0] * Power(r, |cs|) + Polynomial(cs[1..], r)
  }

  lemma {:induction false} PolynomialSnoc(cs: seq<nat>, c: nat, r: nat)
    ensures Polynomial(cs + [c], r) == (Polynomial(cs, r) + c) * r
  {
    if cs == [] {
      assert [] + [c] == [c] && [c][1..] == [];
      assert Power(r, 1) == r * Power(r, 0);
    } else {
      assert (cs + [c])[1..] == cs[1..] + [c];
      PolynomialSnoc(cs[1..], c, r);
      Distribute(cs[0], Power(r, |cs|), Polynomial(cs[1..], r), c, r);
    }
  }

  lemma Distribute(c0: nat, p: nat, rest: nat, c: nat, r: nat)
    ensures c0 * (r * p) + (rest + c) * r == (c0 * p + rest + c) * r
  {
    hide *;
    assert c0 * (r * p) == (c0 * p) * r;
    assert (c0 * p + rest + c) * r == (c0 * p) * r + (rest + c) * r;
  }

  /** Reducing early does not change the result modulo m. */
  lemma ReduceEarly(x: nat, c: nat, r: nat, m: nat)
    requires m > 0
    ensures (x % m + c) * r % m == (x + c) * r % m
  {
    hide *;
    var q := x / m;
    EuclidSplit(x, m);
    ModBound(x, m);
    var y := (x % m + c) * r;
    EuclidSplit(y, m);
    ModBound(y, m);
    assert (x + c) * r == (y / m + q * r) * m + y % m by {
      assert (q * m + (x % m + c)) * r == q * m * r + y;
      assert q * m * r == q * r * m;
      assert (y / m + q * r) * m == y / m * m + q * r * m;
    }
    DivMod((x + c) * r, m, y / m + q * r, y % m);
  }

  /** The tag as section 2.5 defines it: (polynomial mod 2^130-5) + s, modulo 2^128. */
  function TagValue(key: seq<byte>, message: seq<byte>): nat
    requires |key| == 32
  {
    var r, s := And(FromBytes(key[..16]), CLAMP), FromBytes(key[16..]);
    (Polynomial(Coefficients(message), r) % PRIME + s) % Pow2(128)
  }

  function Tag(key: seq<byte>, message: seq<byte>): Result<seq<byte>, CipherError> {
    if |key| != 32 then Err(BadKey) else Ok(ToBytes(TagValue(key, message), 16))
  }

  /** `_poly1305`: the accumulator is reduced after every block. */
  method ComputePoly1305(key: seq<byte>, message: seq<byte>) returns (tag: Result<seq<byte>, CipherError>)
    ensures tag == Tag(key, message)
  {
    hide And, Polynomial, Power, Pow2, FromBytes, ToBytes;
    if |key| != 32 { return Err(BadKey); }
    var r := And(FromBytes(key[..16]), CLAMP);
    var s := FromBytes(key[16..]);
    var acc := 0;
    var i := 0;
    ghost var done: seq<nat> := [];
    assert Polynomial(done, r) == 0 by { EmptyPolynomial(r); }
    while i < |message|
      invariant 0 <= i
      invariant Coefficients(message) == done + (if i <= |message| then Coefficients(message[i..]) else [])
      invariant acc == Polynomial(done, r) % PRIME < PRIME
    {
      var end := if i + 16 <= |message| then i + 16 else |message|;
      var chunk := message[i..end];
      var c := FromBytes(chunk + [1]);
      assert Coefficients(message[i..]) ==
        [c] + (if i + 16 <= |message| then Coefficients(message[i + 16..]) else []) by {
        NextCoefficient(message[i..]);
        assert i + 16 <= |message| ==> message[i..][16..] == message[i + 16..] && message[i..][..16] == chunk;
        assert i + 16 > |message| ==> message[i..] == chunk;
      }
      PolynomialSnoc(done, c, r);
      ReduceEarly(Polynomial(done, r), c, r, PRIME);
      ModBound((acc + c) * r, PRIME);
      acc := (acc + c) * r % PRIME;
      done := done + [c];
      i := i + 16;
    }
    assert done == Coefficients(message);
    Constants();
    AndMask(acc + s, 128);
    tag := Ok(ToBytes(And(acc + s, MASK128), 16));
  }

  lemma EmptyPolynomial(r: nat)
    ensures Polynomial([], r) == 0
  {
  }

  lemma NextCoefficient(m: seq<byte>)
    requires m != []
    ensures Coefficients(m) ==
      if |m| <= 16 then [FromBytes(m + [1])] else [FromBytes(m[..16] + [1])] + Coefficients(m[16..])
    ensures |m| == 16 ==> m[16..] == [] && Coefficients(m[16..]) == []
    ensures |m| == 16 ==> m[..16] == m
  {
  }

  // ---------------------------------------------------------------- what the clamp clears

  /** Section 2.5: the top four bits of bytes 3, 7, 11, 15 and the bottom two of bytes 4, 8, 12 are cleared. */
  function ClampByte(i: nat, b: byte): byte {
    if i % 4 == 3 then b % 16 else if i % 4 == 0 && i > 0 then b - b % 4 else b
  }

  function Clamped(k: seq<byte>): (r: seq<byte>)
    ensures |r| == |k| && forall i :: 0 <= i < |r| ==> r[i] == ClampByte(i, k[i])
  {
    seq(|k|, i requires 0 <= i < |k| => ClampByte(i, k[i]))
  }

  /** The mask, byte by byte. */
  function MaskByte(i: nat): byte {
    if i % 4 == 3 then 15 else if i % 4 == 0 && i > 0 then 252 else 255
  }

  lemma MaskedByte(i: nat, b: byte)
    ensures And(b, MaskByte(i)) == ClampByte(i, b)
  {
    hide And, Pow2;
    Pow2Values();
    SmallPowers();
    AndMask(b, 8);
    AndMask(b, 4);
    HighSix(b);
  }

  lemma HighSix(b: byte)
    ensures And(b, 252) == b - b % 4
  {
    hide And, Pow2;
    SmallPowers();
    AndMask(b / 4, 6);
    AndSplit(b % 4, 0, b / 4, 63, 2);
    AndMask(b % 4, 0);
    assert Pow2(0) == 1 by { PowerZero(); }
  }

  lemma PowerZero()
    ensures Pow2(0) == 1
  {
  }

  lemma SmallPowers()
    ensures Pow2(2) == 4 && Pow2(4) == 16 && Pow2(6) == 64
  {
    assert Pow2(1) == 2;
    assert Pow2(3) == 2 * Pow2(2);
    assert Pow2(5) == 2 * Pow2(4);
  }

  /** Masking acts byte by byte. */
  lemma {:induction false} AndBytes(k: seq<byte>, m: seq<byte>, r: seq<byte>)
    requires |k| == |m| == |r| && forall i :: 0 <= i < |k| ==> And(k[i], m[i]) == r[i]
    ensures And(FromBytes(k), FromBytes(m)) == FromBytes(r)
  {
    if k != [] {
      AndBytes(k[1..], m[1..], r[1..]);
      Pow2Values();
      AndSplit(k[0], m[0], FromBytes(k[1..]), FromBytes(m[1..]), 8);
    }
  }

  lemma ClampIsMask()
    ensures CLAMP == FromBytes(seq(16, i requires 0 <= i < 16 => MaskByte(i)))
  {
    var m: seq<byte> := seq(16, i requires 0 <= i < 16 => MaskByte(i));
    var low, high: nat := 0x0FFF_FFFC_0FFF_FFFF, 0x0FFF_FFFC_0FFF_FFFC;
    hide FromBytes;
    WordOf(m, 0);
    WordOf(m, 4);
    WordOf(m, 8);
    WordOf(m, 12);
    FourWords(m);
  }

  lemma WordOf(m: seq<byte>, i: nat)
    requires i + 4 <= |m|
    ensures var a: int, b: int, c: int, d: int := m[i], m[i + 1], m[i + 2], m[i + 3];
            FromBytes(m[i..i + 4]) == a + 0x100 * b + 0x1_0000 * c + 0x100_0000 * d
  {
    var w := m[i..i + 4];
    assert FromBytes(w) == w[0] + 0x100 * FromBytes(w[1..]);
    assert FromBytes(w[1..]) == w[1] + 0x100 * FromBytes(w[1..][1..]);
    assert FromBytes(w[1..][1..]) == w[2] + 0x100 * FromBytes(w[1..][1..][1..]);
    assert w[1..][1..][1..] == [w[3]];
    assert FromBytes([w[3]]) == w[3] + 0x100 * FromBytes([w[3]][1..]);
  }

  lemma FourWords(m: seq<byte>)
    requires |m| == 16
    ensures FromBytes(m) == FromBytes(m[0..4]) + 0x1_0000_0000 * (FromBytes(m[4..8])
              + 0x1_0000_0000 * (FromBytes(m[8..12]) + 0x1_0000_0000 * FromBytes(m[12..16])))
  {
    hide FromBytes;
    Pow2Values();
    assert m == m[0..4] + m[4..] && m[4..] == m[4..8] + m[8..] && m[8..] == m[8..12] + m[12..16];
    FromBytesAppend(m[0..4], m[4..]);
    FromBytesAppend(m[4..8], m[8..]);
    FromBytesAppend(m[8..12], m[12..16]);
  }

  lemma ClampClears(k: seq<byte>)
    requires |k| == 16
    ensures And(FromBytes(k), CLAMP) == FromBytes(Clamped(k))
  {
    hide And, FromBytes, MaskByte, ClampByte;
    var m: seq<byte> := seq(16, i requires 0 <= i < 16 => MaskByte(i));
    forall i | 0 <= i < 16 ensures And(k[i], m[i]) == Clamped(k)[i] {
      MaskedByte(i, k[i]);
    }
    AndBytes(k, m, Clamped(k));
    ClampIsMask();
  }

  /**
   Every key and message has a 16-byte tag. In little-endian order it spells the polynomial in the
   clamped first half of the key modulo 2^130 - 5, plus the second half, modulo 2^128.
   */
  lemma TagSpells(key: seq<byte>, message: seq<byte>)
    requires |key| == 32
    ensures Tag(key, message).Ok? && |Tag(key, message).value| == 16
    ensures FromBytes(Tag(key, message).value) ==
            (Polynomial(Coefficients(message), FromBytes(Clamped(key[..16]))) % (Pow2(130) - 5)
             + FromBytes(key[16..])) % Pow2(128)
  {
    hide Polynomial, Coefficients, FromBytes, Clamped, Pow2, ToBytes, And;
    ClampClears(key[..16]);
    Constants();
    ModBound(TagValue(key, message), Pow2(128));
    FromToBytes(TagValue(key, message), 16);
  }

  /** Different messages have different coefficient lists, also when one extends the other by zeros. */
  lemma {:induction false} CoefficientsInjective(a: seq<byte>, b: seq<byte>)
    requires Coefficients(a) == Coefficients(b)
    ensures a == b
  {
    if a != [] && b != [] {
      var x, y := if |a| <= 16 then a else a[..16], if |b| <= 16 then b else b[..16];
      assert Coefficients(a)[0] == FromBytes(x + [1]) && Coefficients(b)[0] == FromBytes(y + [1]);
      FromBytesExact(x + [1], y + [1]);
      assert x == (x + [1])[..|x|] && y == (y + [1])[..|y|];
      if |a| > 16 && |b| > 16 {
        assert Coefficients(a)[1..] == Coefficients(a[16..]) && Coefficients(b)[1..] == Coefficients(b[16..]);
        CoefficientsInjective(a[16..], b[16..]);
        assert a == a[..16] + a[16..] && b == b[..16] + b[16..];
      }
    }
  }
}
