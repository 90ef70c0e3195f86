/**
 Python's unbounded integers as the cipher code uses them: shifts, bitwise operators,
 and little-endian conversion to and from bytes.
 */
module Integers {
  type byte = x: int | 0 <= x < 256

  type word = x: int | 0 <= x < 0x1_0000_0000

  function Pow2(n: nat): (r: nat)
    ensures r > 0
  {
    if n == 0 then 1 else 2 * Pow2(n - 1)
  }

  lemma {:induction false} Pow2Add(m: nat, n: nat)
    ensures Pow2(m + n) == Pow2(m) * Pow2(n)
  {
    if m > 0 {
      Pow2Add(m - 1, n);
    }
  }

  lemma Pow2Values()
    ensures Pow2(8) == 0x100 && Pow2(16) == 0x1_0000 && Pow2(32) == 0x1_0000_0000
  {
    Pow2Add(8, 8);
    Pow2Add(16, 16);
  }

  function Shl(a: nat, n: nat): (r: nat)
    ensures r == a * Pow2(n)
  {
    if n == 0 then a else 2 * Shl(a, n - 1)
  }

  function Shr(a: nat, n: nat): (r: nat)
    ensures r == a / Pow2(n)
  {
    EuclidSplit(a, Pow2(n));
    ModBound(a, Pow2(n));
    QuotientNat(a, Pow2(n), a / Pow2(n));
    a / Pow2(n)
  }

  lemma QuotientNat(a: nat, m: int, q: int)
    requires m > 0 && q * m <= a < (q + 1) * m
    ensures q >= 0
  {
    assert q <= -1 ==> (q + 1) * m <= 0;
  }

  // ---------------------------------------------------------------- bitwise operators

  function Xor(a: nat, b: nat): nat {
    if a == 0 then b else if b == 0 then a else (a + b) % 2 + 2 * Xor(a / 2, b / 2)
  }

  function Or(a: nat, b: nat): nat {
    if a == 0 then b else if b == 0 then a
    else (if a % 2 == 1 || b % 2 == 1 then 1 else 0) + 2 * Or(a / 2, b / 2)
  }

  function And(a: nat, b: nat): nat {
    if a == 0 || b == 0 then 0
    else (if a % 2 == 1 && b % 2 == 1 then 1 else 0) + 2 * And(a / 2, b / 2)
  }

  lemma {:induction false} XorSelf(a: nat)
    ensures Xor(a, a) == 0
  {
    if a > 0 {
      XorSelf(a / 2);
    }
  }

  lemma XorStep(a: nat, b: nat)
    ensures Xor(a, b) == (a + b) % 2 + 2 * Xor(a / 2, b / 2)
  {
  }

  lemma {:induction false} XorInvolution(a: nat, b: nat)
    ensures Xor(Xor(a, b), b) == a
    decreases a + b
  {
    if a + b > 0 {
      XorStep(a, b);
      XorInvolution(a / 2, b / 2);
      XorUndo(a, b, Xor(a / 2, b / 2));
    }
  }

  lemma XorUndo(a: nat, b: nat, y: nat)
    requires Xor(y, b / 2) == a / 2
    ensures Xor((a + b) % 2 + 2 * y, b) == a
  {
    hide *;
    var x := (a + b) % 2 + 2 * y;
    XorStep(x, b);
    assert x / 2 == y;
    assert (x + b) % 2 == a % 2;
  }

  lemma {:induction false} XorBound(a: nat, b: nat, n: nat)
    requires a < Pow2(n) && b < Pow2(n)
    ensures Xor(a, b) < Pow2(n)
  {
    if a > 0 && b > 0 {
      XorBound(a / 2, b / 2, n - 1);
    }
  }

  /** Bit `i` of a number. */
  predicate Bit(a: nat, i: nat) {
    if i == 0 then a % 2 == 1 else Bit(a / 2, i - 1)
  }

  lemma {:induction false} ZeroBits(i: nat)
    ensures !Bit(0, i)
  {
    if i > 0 {
      ZeroBits(i - 1);
    }
  }

  /** Exclusive-or acts bit by bit. */
  lemma {:induction false} XorBits(a: nat, b: nat, i: nat)
    ensures Bit(Xor(a, b), i) <==> Bit(a, i) != Bit(b, i)
    decreases i
  {
    hide Xor;
    XorStep(a, b);
    if i > 0 {
      XorBits(a / 2, b / 2, i - 1);
    }
  }

  /** And so does masking. */
  lemma {:induction false} AndBits(a: nat, b: nat, i: nat)
    ensures Bit(And(a, b), i) <==> Bit(a, i) && Bit(b, i)
    decreases i
  {
    hide And;
    AndStep(a, b);
    if i > 0 {
      AndBits(a / 2, b / 2, i - 1);
    }
  }

  /** Low and high parts are masked apart. */
  lemma {:induction false} AndSplit(a: nat, c: nat, x: nat, y: nat, n: nat)
    requires a < Pow2(n) && c < Pow2(n)
    ensures And(a + Pow2(n) * x, c + Pow2(n) * y) == And(a, c) + Pow2(n) * And(x, y)
    decreases n
  {
    if n == 0 {
      assert Pow2(0) == 1 && And(0, 0) == 0;
    } else {
      var p := Pow2(n - 1);
      assert Pow2(n) == 2 * p;
      AndSplit(a / 2, c / 2, x, y, n - 1);
      hide And, Pow2;
      AndHalves(a, c, p, x, y);
    }
  }

  lemma AndHalves(a: nat, c: nat, p: nat, x: nat, y: nat)
    requires And(a / 2 + p * x, c / 2 + p * y) == And(a / 2, c / 2) + p * And(x, y)
    ensures And(a + 2 * p * x, c + 2 * p * y) == And(a, c) + 2 * p * And(x, y)
  {
    hide And;
    HalfSum(a, p, x);
    HalfSum(c, p, y);
    DoubleProduct(p, And(x, y));
    AndStep(a + 2 * p * x, c + 2 * p * y);
    AndStep(a, c);
  }

  lemma AndStep(a: nat, b: nat)
    ensures And(a, b) == (if a % 2 == 1 && b % 2 == 1 then 1 else 0) + 2 * And(a / 2, b / 2)
  {
  }

  lemma HalfSum(a: nat, p: nat, x: nat)
    ensures (a + 2 * p * x) / 2 == a / 2 + p * x && (a + 2 * p * x) % 2 == a % 2
  {
    hide *;
    DoubleProduct(p, x);
  }

  lemma DoubleProduct(p: nat, x: nat)
    ensures 2 * p * x == 2 * (p * x)
  {
  }

  /** Masking with n one bits keeps the residue modulo 2^n. */
  lemma {:induction false} AndMask(a: nat, n: nat)
    ensures And(a, Pow2(n) - 1) == a % Pow2(n)
    decreases n
  {
    if n > 0 {
      var p := Pow2(n - 1);
      AndMask(a / 2, n - 1);
      assert (Pow2(n) - 1) / 2 == p - 1;
      HalveMod(a, p);
    }
  }

  lemma HalveMod(a: nat, p: nat)
    requires p > 0
    ensures a % (2 * p) == a % 2 + 2 * (a / 2 % p)
  {
    hide *;
    var q, r := a / 2 / p, a / 2 % p;
    EuclidSplit(a / 2, p);
    ModBound(a / 2, p);
    EuclidSplit(a, 2);
    assert a == q * (2 * p) + (a % 2 + 2 * r) by {
      assert q * (2 * p) == 2 * (q * p);
    }
    DivMod(a, 2 * p, q, a % 2 + 2 * r);
  }

  /** Joining a shifted number with one that fits below the shift is addition. */
  lemma {:induction false} OrDisjoint(a: nat, b: nat, n: nat)
    requires b < Pow2(n)
    ensures Or(Shl(a, n), b) == Shl(a, n) + b
    decreases n
  {
    if n > 0 && b > 0 && a > 0 {
      OrDisjoint(a, b / 2, n - 1);
    }
  }

  /** Quotient and remainder are determined by their equation. */
  lemma DivMod(x: int, m: int, q: int, r: int)
    requires m > 0 && x == q * m + r && 0 <= r < m
    ensures x / m == q && x % m == r
  {
    var d := x / m - q;
    assert x == x / m * m + x % m;
    assert d * m == r - x % m;
    assert d >= 1 ==> d * m >= m;
    assert d <= -1 ==> d * m <= -m;
  }

  lemma ModBound(x: int, m: int)
    requires m > 0
    ensures 0 <= x % m < m
  {
  }

  // ---------------------------------------------------------------- bytes

  /** `int.from_bytes(b, "little")`. */
  function FromBytes(b: seq<byte>): nat {
    if b == [] then 0 else b[0] + 256 * FromBytes(b[1..])
  }

  /** `n.to_bytes(k, "little")` for a number below 256^k. */
  function ToBytes(n: nat, k: nat): (b: seq<byte>)
    ensures |b| == k
  {
    if k == 0 then [] else [n % 256] + ToBytes(n / 256, k - 1)
  }

  lemma {:induction false} FromToBytes(n: nat, k: nat)
    requires n < Pow2(8 * k)
    ensures FromBytes(ToBytes(n, k)) == n
  {
    if k > 0 {
      Pow2Add(8, 8 * (k - 1));
      Pow2Values();
      assert n / 256 < Pow2(8 * (k - 1));
      FromToBytes(n / 256, k - 1);
      assert ToBytes(n, k)[1..] == ToBytes(n / 256, k - 1);
    }
  }

  /** The first byte is the lowest: little-endian order. */
  lemma {:induction false} FromBytesAppend(a: seq<byte>, b: seq<byte>)
    ensures FromBytes(a + b) == FromBytes(a) + Pow2(8 * |a|) * FromBytes(b)
  {
    if a == [] {
      assert a + b == b;
    } else {
      assert (a + b)[1..] == a[1..] + b;
      FromBytesAppend(a[1..], b);
      Pow2Add(8, 8 * |a[1..]|);
      Pow2Values();
      MulAssociates(256, Pow2(8 * |a[1..]|), FromBytes(b));
    }
  }

  lemma MulAssociates(x: nat, y: nat, z: nat)
    ensures x * (y * z) == x * y * z
  {
  }

  lemma {:induction false} FromBytesBound(b: seq<byte>)
    ensures FromBytes(b) < Pow2(8 * |b|)
  {
    if b != [] {
      FromBytesBound(b[1..]);
      Pow2Add(8, 8 * |b[1..]|);
      Pow2Values();
    }
  }

  lemma {:induction false} FromBytesInjective(a: seq<byte>, b: seq<byte>)
    requires |a| == |b| && FromBytes(a) == FromBytes(b)
    ensures a == b
  {
    if a != [] {
      assert a[0] == FromBytes(a) % 256 && b[0] == FromBytes(b) % 256;
      FromBytesInjective(a[1..], b[1..]);
      assert a == [a[0]] + a[1..] && b == [b[0]] + b[1..];
    }
  }

  /** Without trailing zero bytes even the length is determined. */
  lemma {:induction false} FromBytesExact(a: seq<byte>, b: seq<byte>)
    requires a != [] && b != [] && a[|a| - 1] != 0 && b[|b| - 1] != 0
    requires FromBytes(a) == FromBytes(b)
    ensures a == b
  {
    assert a[0] == FromBytes(a) % 256 && b[0] == FromBytes(b) % 256;
    assert FromBytes(a[1..]) == FromBytes(b[1..]);
    if |a| == 1 || |b| == 1 {
      TopBytePositive(a);
      TopBytePositive(b);
      assert a[1..] == b[1..] == [];
    } else {
      FromBytesExact(a[1..], b[1..]);
    }
    assert a == [a[0]] + a[1..] && b == [b[0]] + b[1..];
  }

  lemma {:induction false} TopBytePositive(a: seq<byte>)
    requires a != [] && a[|a| - 1] != 0
    ensures FromBytes(a) > 0
    ensures |a| > 1 ==> FromBytes(a[1..]) > 0
  {
    if |a| > 1 {
      TopBytePositive(a[1..]);
    }
  }

  // ---------------------------------------------------------------- 32-bit words

  function AddWord(a: word, b: word): word {
    (a + b) % 0x1_0000_0000
  }

  function SubWord(a: word, b: word): word {
    (a - b) % 0x1_0000_0000
  }

  function XorWord(a: word, b: word): word {
    Pow2Values();
    XorBound(a, b, 32);
    Xor(a, b)
  }

  function XorByte(a: byte, b: byte): byte {
    Pow2Values();
    XorBound(a, b, 8);
    Xor(a, b)
  }

  /** `_rotl32`: both shifts, joined, cut to 32 bits. */
  function Rotl32(value: word, bits: nat): word
    requires 0 < bits < 32
  {
    var joined := Or(Shl(value, bits), Shr(value, 32 - bits));
    AndMask(joined, 32);
    Pow2Values();
    And(joined, 0xFFFF_FFFF)
  }

  lemma EuclidSplit(x: int, m: int)
    requires m > 0
    ensures x == x / m * m + x % m
  {
  }

  lemma SplitBelow(hi: nat, lo: nat, p: nat, q: nat)
    requires hi * q + lo < p * q && lo < q
    ensures hi < p
  {
    hide *;
    assert hi >= p ==> hi * q >= p * q;
  }

  lemma SplitJoin(hi: nat, lo: nat, p: nat, q: nat)
    requires 0 < p && hi < p && lo < q
    ensures lo * p + hi < p * q
    ensures (hi * q + lo) * p + hi == hi * (p * q) + (lo * p + hi)
  {
    hide *;
    assert lo * p <= (q - 1) * p;
    assert (hi * q + lo) * p == hi * q * p + lo * p;
    assert hi * q * p == hi * (p * q);
  }

  /** On 32-bit values the shifts exchange the high `bits` bits and the rest. */
  lemma Rotl32Rotates(value: word, bits: nat)
    requires 0 < bits < 32
    ensures Rotl32(value, bits) == value % Pow2(32 - bits) * Pow2(bits) + value / Pow2(32 - bits)
    ensures Rotl32(value, bits) % Pow2(bits) == value / Pow2(32 - bits)
    ensures Rotl32(value, bits) / Pow2(bits) == value % Pow2(32 - bits)
  {
    hide Pow2, Or, And, Shl, Shr;
    var p, q := Pow2(bits), Pow2(32 - bits);
    Pow2Add(bits, 32 - bits);
    Pow2Values();
    var hi: nat := Shr(value, 32 - bits);
    ModBound(value, q);
    EuclidSplit(value, q);
    RotateParts(hi, value % q, p, q);
    OrDisjoint(value, hi, bits);
    AndMask(Shl(value, bits) + hi, 32);
  }

  lemma RotateParts(hi: nat, lo: nat, p: nat, q: nat)
    requires 0 < p && hi * q + lo < p * q && lo < q
    ensures hi < p
    ensures ((hi * q + lo) * p + hi) % (p * q) == lo * p + hi
    ensures (lo * p + hi) % p == hi && (lo * p + hi) / p == lo
  {
    SplitBelow(hi, lo, p, q);
    SplitJoin(hi, lo, p, q);
    DivMod((hi * q + lo) * p + hi, p * q, hi, lo * p + hi);
    DivMod(lo * p + hi, p, lo, hi);
  }

  lemma Rotl32Inverse(value: word, bits: nat)
    requires 0 < bits < 32
    ensures Rotl32(Rotl32(value, bits), 32 - bits) == value
  {
    var r := Rotl32(value, bits);
    Rotl32Rotates(value, bits);
    Rotl32Rotates(r, 32 - bits);
    EuclidSplit(value, Pow2(32 - bits));
  }

  lemma AddSub(a: word, b: word)
    ensures SubWord(AddWord(a, b), b) == a
    ensures AddWord(SubWord(a, b), b) == a
  {
  }

  lemma XorWordInvolution(a: word, b: word)
    ensures XorWord(XorWord(a, b), b) == a
  {
    XorInvolution(a, b);
  }
}
