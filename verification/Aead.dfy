/** ChaCha20-Poly1305 (RFC 8439, section 2.8) as the encrypted transport composes it. */
module Aead {
  import opened Prelude
  import opened Integers
  import opened ChaCha20
  import Poly1305

  const MAX_PACKED: nat := 0x1_0000_0000_0000_0000

  function Pad16(data: seq<byte>): (r: seq<byte>)
    ensures |r| % 16 == 0 && data <= r && |r| < |data| + 16
    ensures forall i :: |data| <= i < |r| ==> r[i] == 0
  {
    if |data| % 16 == 0 then data else data + seq(16 - |data| % 16, _ => 0)
  }

  /** What is authenticated: both texts padded, then both lengths. */
  function MacData(aad: seq<byte>, ciphertext: seq<byte>): seq<byte> {
    Pad16(aad) + Pad16(ciphertext) + ToBytes(|aad|, 8) + ToBytes(|ciphertext|, 8)
  }

  function ComputeTag(key: seq<byte>, nonce: seq<byte>, aad: seq<byte>, ciphertext: seq<byte>)
    : (r: Result<seq<byte>, CipherError>)
    ensures r.Ok? <==> |key| == 32 && |nonce| == 12 && |aad| < MAX_PACKED && |ciphertext| < MAX_PACKED
    ensures r.Err? ==> r.error == if |key| != 32 then BadKey else if |nonce| != 12 then BadNonce else BadLength
  {
    match Block(key, 0, nonce)
    case Err(e) => Err(e)
    case Ok(block) =>
      if |aad| >= MAX_PACKED || |ciphertext| >= MAX_PACKED then Err(BadLength)
      else Poly1305.Tag(block[..32], MacData(aad, ciphertext))
  }

  function Seal(key: seq<byte>, nonce: seq<byte>, aad: seq<byte>, plaintext: seq<byte>)
    : Result<(seq<byte>, seq<byte>), CipherError>
  {
    match Stream(key, 1, nonce, plaintext)
    case Err(e) => Err(e)
    case Ok(ciphertext) =>
      match ComputeTag(key, nonce, aad, ciphertext)
      case Err(e) => Err(e)
      case Ok(tag) => Ok((ciphertext, tag))
  }

  /** `Ok(None)` is the authentication failure the source answers with None. */
  function Open(key: seq<byte>, nonce: seq<byte>, aad: seq<byte>, ciphertext: seq<byte>, tag: seq<byte>)
    : Result<Option<seq<byte>>, CipherError>
  {
    match ComputeTag(key, nonce, aad, ciphertext)
    case Err(e) => Err(e)
    case Ok(expected) =>
      if expected != tag then Ok(None)
      else match Stream(key, 1, nonce, ciphertext)
        case Err(e) => Err(e)
        case Ok(plaintext) => Ok(Some(plaintext))
  }

  /** Opening and sealing are exact inverses, for every input including the refused ones. */
  lemma OpenExactlySealed(key: seq<byte>, nonce: seq<byte>, aad: seq<byte>, plaintext: seq<byte>,
                          ciphertext: seq<byte>, tag: seq<byte>)
    ensures Open(key, nonce, aad, ciphertext, tag) == Ok(Some(plaintext))
      <==> Seal(key, nonce, aad, plaintext) == Ok((ciphertext, tag))
  {
    hide Stream, ComputeTag;
    if Stream(key, 1, nonce, ciphertext).Ok? {
      StreamInvolution(key, 1, nonce, ciphertext);
    }
    if Stream(key, 1, nonce, plaintext).Ok? {
      StreamInvolution(key, 1, nonce, plaintext);
    }
  }

  /** Sealing succeeds exactly up to the plaintext limit of section 2.8. */
  lemma SealDomain(key: seq<byte>, nonce: seq<byte>, aad: seq<byte>, plaintext: seq<byte>)
    ensures Seal(key, nonce, aad, plaintext).Ok?
      <==> |key| == 32 && |nonce| == 12 && |plaintext| <= 274_877_906_880 && |aad| < 0x1_0000_0000_0000_0000
  {
    hide Stream, ComputeTag;
    if plaintext != [] {
      assert LastCounter(1, |plaintext|) <= MAX_COUNTER <==> |plaintext| <= MAX_PLAINTEXT;
    }
  }

  /** Section 2.6: the one-time key is what the stream of counter 0 makes of 32 zero bytes. */
  function OneTimeKey(key: seq<byte>, nonce: seq<byte>): Result<seq<byte>, CipherError> {
    Stream(key, 0, nonce, seq(32, _ => 0))
  }

  lemma OneTimeKeyIsBlock(key: seq<byte>, nonce: seq<byte>)
    requires |key| == 32 && |nonce| == 12
    ensures OneTimeKey(key, nonce) == Ok(Keystream(key, 0, nonce)[..32])
  {
    hide Keystream;
    var zeros: seq<byte> := seq(32, _ => 0);
    var stream := Stream(key, 0, nonce, zeros).value;
    forall i | 0 <= i < 32 ensures stream[i] == Keystream(key, 0, nonce)[i] {
      assert stream[i] == StreamByte(key, 0, nonce, zeros, i);
      XorWithZero(Keystream(key, 0, nonce)[i]);
    }
    assert stream == Keystream(key, 0, nonce)[..32];
  }

  lemma XorWithZero(b: byte)
    ensures XorByte(0, b) == b
  {
  }

  /**
   What a sealed pair is made of: the ciphertext is the plaintext under the stream from counter 1, and
   the tag is Poly1305, under the one-time key of counter 0, of some text with the layout of section 2.8.
   */
  lemma SealedParts(key: seq<byte>, nonce: seq<byte>, aad: seq<byte>, plaintext: seq<byte>,
                    ciphertext: seq<byte>, tag: seq<byte>)
    returns (subkey: seq<byte>, mac: seq<byte>)
    requires Seal(key, nonce, aad, plaintext) == Ok((ciphertext, tag))
    ensures Stream(key, 1, nonce, plaintext) == Ok(ciphertext)
    ensures OneTimeKey(key, nonce) == Ok(subkey) && |subkey| == 32
    ensures MacLayout(mac, aad, ciphertext) && Poly1305.Tag(subkey, mac) == Ok(tag)
  {
    hide Stream, Keystream, MacData, Poly1305.Tag, MacLayout, OneTimeKey;
    OneTimeKeyIsBlock(key, nonce);
    subkey, mac := Keystream(key, 0, nonce)[..32], MacData(aad, ciphertext);
    MacDataLayout(aad, ciphertext);
  }

  function UpTo16(n: nat): nat {
    (n + 15) / 16 * 16
  }

  predicate Zero(b: seq<byte>) {
    forall i :: 0 <= i < |b| ==> b[i] == 0
  }

  /** Both texts, each filled up with zeros to a multiple of 16, then both lengths in eight bytes, lowest first. */
  predicate MacLayout(mac: seq<byte>, aad: seq<byte>, ciphertext: seq<byte>) {
    var k, n := UpTo16(|aad|), UpTo16(|aad|) + UpTo16(|ciphertext|);
    && |mac| == n + 16
    && mac[..|aad|] == aad && Zero(mac[|aad|..k])
    && mac[k..k + |ciphertext|] == ciphertext && Zero(mac[k + |ciphertext|..n])
    && FromBytes(mac[n..n + 8]) == |aad| && FromBytes(mac[n + 8..]) == |ciphertext|
  }

  lemma MacDataLayout(aad: seq<byte>, ciphertext: seq<byte>)
    requires |aad| < MAX_PACKED && |ciphertext| < MAX_PACKED
    ensures MacLayout(MacData(aad, ciphertext), aad, ciphertext)
  {
    hide ToBytes, FromBytes, Pow2;
    MacDataParts(aad, ciphertext);
    var mac, p, q := MacData(aad, ciphertext), Pad16(aad), Pad16(ciphertext);
    assert |p| == UpTo16(|aad|) && |q| == UpTo16(|ciphertext|);
    assert mac == p + (q + ToBytes(|aad|, 8) + ToBytes(|ciphertext|, 8));
    assert mac[..|p|] == p && mac[|p|..|p| + |q|] == q;
    Pow2Values();
    Pow2Add(32, 32);
    FromToBytes(|aad|, 8);
    FromToBytes(|ciphertext|, 8);
  }

  /**
   Byte i of a sealed text meets the block of counter 1 + i / 64, while the tag is computed under the first
   half of the block of counter 0, and behind the rounds the two states differ.
   */
  lemma KeystreamSeparation(key: seq<byte>, nonce: seq<byte>, aad: seq<byte>, plaintext: seq<byte>,
                            ciphertext: seq<byte>, tag: seq<byte>, i: nat)
    requires i < |plaintext|
    requires Seal(key, nonce, aad, plaintext) == Ok((ciphertext, tag))
    ensures TaggedUnderBlockZero(key, nonce, aad, ciphertext, tag)
    ensures MeetsLaterBlock(key, nonce, plaintext, ciphertext, i)
  {
    hide *;
    var subkey, mac := SealedParts(key, nonce, aad, plaintext, ciphertext, tag);
    StreamAt(key, nonce, plaintext, ciphertext, i);
    StreamKey(key, nonce, subkey);
    TaggedThere(key, nonce, aad, ciphertext, tag, subkey, mac);
  }

  lemma StreamKey(key: seq<byte>, nonce: seq<byte>, subkey: seq<byte>)
    requires OneTimeKey(key, nonce) == Ok(subkey)
    ensures |key| == 32 && |nonce| == 12
  {
    hide StreamByte;
  }

  /** The tag is computed under the first half of the counter-0 block. */
  ghost predicate TaggedUnderBlockZero(key: seq<byte>, nonce: seq<byte>, aad: seq<byte>, ciphertext: seq<byte>,
                                       tag: seq<byte>)
  {
    |key| == 32 && |nonce| == 12
    && exists mac :: MacLayout(mac, aad, ciphertext) && Poly1305.Tag(Keystream(key, 0, nonce)[..32], mac) == Ok(tag)
  }

  /** Byte i is enciphered with the block of counter 1 + i / 64, whose mixed state is not that of counter 0. */
  ghost predicate MeetsLaterBlock(key: seq<byte>, nonce: seq<byte>, plaintext: seq<byte>, ciphertext: seq<byte>,
                                  i: nat)
  {
    && |key| == 32 && |nonce| == 12 && i < |ciphertext| == |plaintext| && 1 + i / 64 <= MAX_COUNTER
    && ciphertext[i] == XorByte(plaintext[i], Keystream(key, 1 + i / 64, nonce)[i % 64])
    && Rounds(InitialState(key, 1 + i / 64, nonce), 10) != Rounds(InitialState(key, 0, nonce), 10)
  }

  lemma TaggedThere(key: seq<byte>, nonce: seq<byte>, aad: seq<byte>, ciphertext: seq<byte>, tag: seq<byte>,
                    subkey: seq<byte>, mac: seq<byte>)
    requires |key| == 32 && |nonce| == 12 && OneTimeKey(key, nonce) == Ok(subkey)
    requires MacLayout(mac, aad, ciphertext) && Poly1305.Tag(subkey, mac) == Ok(tag)
    ensures TaggedUnderBlockZero(key, nonce, aad, ciphertext, tag)
  {
    hide Keystream, MacLayout, Poly1305.Tag, OneTimeKey;
    OneTimeKeyIsBlock(key, nonce);
  }

  lemma StreamAt(key: seq<byte>, nonce: seq<byte>, plaintext: seq<byte>, ciphertext: seq<byte>, i: nat)
    requires i < |plaintext| && Stream(key, 1, nonce, plaintext) == Ok(ciphertext)
    ensures MeetsLaterBlock(key, nonce, plaintext, ciphertext, i)
  {
    hide Keystream, XorByte, InitialState, Rounds;
    CounterZeroApart(key, 1 + i / 64, nonce);
    assert ciphertext[i] == StreamByte(key, 1, nonce, plaintext, i);
  }

  lemma CounterZeroApart(key: seq<byte>, counter: word, nonce: seq<byte>)
    requires |key| == 32 && |nonce| == 12 && counter != 0
    ensures Rounds(InitialState(key, counter, nonce), 10) != Rounds(InitialState(key, 0, nonce), 10)
  {
    hide InitialState, Rounds;
    if Rounds(InitialState(key, counter, nonce), 10) == Rounds(InitialState(key, 0, nonce), 10) {
      MixedStateInjective(key, counter, nonce, key, 0, nonce);
    }
  }

  /** The authenticated string determines both texts. */
  lemma MacDataInjective(a: seq<byte>, c: seq<byte>, a': seq<byte>, c': seq<byte>)
    requires |a| < MAX_PACKED && |a'| < MAX_PACKED && |c| < MAX_PACKED && |c'| < MAX_PACKED
    requires MacData(a, c) == MacData(a', c')
    ensures a == a' && c == c'
  {
    hide MacData, ToBytes;
    MacDataParts(a, c);
    MacDataParts(a', c');
    LengthBytes(|a|, |a'|);
    LengthBytes(|c|, |c'|);
  }

  lemma MacDataParts(a: seq<byte>, c: seq<byte>)
    ensures var m, k := MacData(a, c), |Pad16(a)|;
      && |m| >= k + |c| + 16
      && m[|m| - 16..|m| - 8] == ToBytes(|a|, 8) && m[|m| - 8..] == ToBytes(|c|, 8)
      && m[..|a|] == a && m[k..k + |c|] == c
  {
    hide ToBytes;
    var p, q := Pad16(a), Pad16(c);
    assert p[..|a|] == a && q[..|c|] == c;
    assert MacData(a, c) == p + (q + ToBytes(|a|, 8) + ToBytes(|c|, 8));
  }

  lemma LengthBytes(n: nat, m: nat)
    requires n < MAX_PACKED && m < MAX_PACKED && ToBytes(n, 8) == ToBytes(m, 8)
    ensures n == m
  {
    Pow2Values();
    Pow2Add(32, 32);
    FromToBytes(n, 8);
    FromToBytes(m, 8);
  }

  /** Poly1305 sees different polynomials for different pairs of texts. */
  lemma AuthenticatedExactly(a: seq<byte>, c: seq<byte>, a': seq<byte>, c': seq<byte>)
    requires |a| < MAX_PACKED && |a'| < MAX_PACKED && |c| < MAX_PACKED && |c'| < MAX_PACKED
    ensures Poly1305.Coefficients(MacData(a, c)) == Poly1305.Coefficients(MacData(a', c')) <==> a == a' && c == c'
  {
    if Poly1305.Coefficients(MacData(a, c)) == Poly1305.Coefficients(MacData(a', c')) {
      Poly1305.CoefficientsInjective(MacData(a, c), MacData(a', c'));
      MacDataInjective(a, c, a', c');
    }
  }
}
