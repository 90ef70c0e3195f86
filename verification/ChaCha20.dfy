/** The ChaCha20 block function and stream (RFC 8439, sections 2.1 to 2.4). */
module ChaCha20 {
  import opened Prelude
  import opened Integers

  datatype CipherError = BadKey | BadNonce | BadCounter | BadLength

  type State = s: seq<word> | |s| == 16 witness seq(16, _ => 0)

  const CONSTANTS: seq<word> := [0x6170_7865, 0x3320_646E, 0x7962_2D32, 0x6B20_6574]

  const MAX_COUNTER := 0xFFFF_FFFF

  const MAX_PLAINTEXT := 64 * MAX_COUNTER

  // ---------------------------------------------------------------- quarter round

  datatype Quad = Quad(a: word, b: word, c: word, d: word)

  /** Section 2.1 of RFC 8439 on four words. */
  function Quarter(q: Quad): Quad {
    var a := AddWord(q.a, q.b);
    var d := Rotl32(XorWord(q.d, a), 16);
    var c := AddWord(q.c, d);
    var b := Rotl32(XorWord(q.b, c), 12);
    var a' := AddWord(a, b);
    var d' := Rotl32(XorWord(d, a'), 8);
    var c' := AddWord(c, d');
    var b' := Rotl32(XorWord(b, c'), 7);
    Quad(a', b', c', d')
  }

  function Unquarter(q: Quad): Quad {
    var b := XorWord(Rotl32(q.b, 25), q.c);
    var c := SubWord(q.c, q.d);
    var d := XorWord(Rotl32(q.d, 24), q.a);
    var a := SubWord(q.a, b);
    var b' := XorWord(Rotl32(b, 20), c);
    var c' := SubWord(c, d);
    var d' := XorWord(Rotl32(d, 16), a);
    Quad(SubWord(a, b'), b', c', d')
  }

  /** One half step, forwards and backwards: exclusive-or, then rotate. */
  lemma MixInverse(x: word, y: word, bits: nat)
    requires 0 < bits < 32
    ensures XorWord(Rotl32(Rotl32(XorWord(x, y), bits), 32 - bits), y) == x
    ensures Rotl32(XorWord(XorWord(Rotl32(x, 32 - bits), y), y), bits) == x
  {
    hide AddWord, SubWord, XorWord, Rotl32;
    Rotl32Inverse(XorWord(x, y), bits);
    XorWordInvolution(x, y);
    XorWordInvolution(Rotl32(x, 32 - bits), y);
    Rotl32Inverse(x, 32 - bits);
  }

  /** A quarter round loses nothing: it is a bijection on four words. */
  lemma QuarterInverse(q: Quad)
    ensures Unquarter(Quarter(q)) == q
    ensures Quarter(Unquarter(q)) == q
  {
    hide AddWord, SubWord, XorWord, Rotl32;
    var a := AddWord(q.a, q.b);
    var d := Rotl32(XorWord(q.d, a), 16);
    var c := AddWord(q.c, d);
    var b := Rotl32(XorWord(q.b, c), 12);
    var r := Quarter(q);
    MixInverse(q.d, a, 16);
    MixInverse(q.b, c, 12);
    MixInverse(d, r.a, 8);
    MixInverse(b, r.c, 7);
    AddSub(q.a, q.b);
    AddSub(q.c, d);
    AddSub(a, b);
    AddSub(c, r.d);
    var b1 := XorWord(Rotl32(q.b, 25), q.c);
    var c1 := SubWord(q.c, q.d);
    var d1 := XorWord(Rotl32(q.d, 24), q.a);
    var a1 := SubWord(q.a, b1);
    var u := Unquarter(q);
    MixInverse(q.b, q.c, 7);
    MixInverse(q.d, q.a, 8);
    MixInverse(b1, c1, 12);
    MixInverse(d1, a1, 16);
    AddSub(q.c, q.d);
    AddSub(q.a, b1);
    AddSub(c1, d1);
    AddSub(a1, u.b);
  }

  // ---------------------------------------------------------------- on a state of sixteen words

  predicate Indices(a: nat, b: nat, c: nat, d: nat) {
    a < 16 && b < 16 && c < 16 && d < 16 && a != b && a != c && a != d && b != c && b != d && c != d
  }

  function Put(s: State, q: Quad, a: nat, b: nat, c: nat, d: nat): State
    requires Indices(a, b, c, d)
  {
    s[a := q.a][b := q.b][c := q.c][d := q.d]
  }

  function QuarterAt(s: State, a: nat, b: nat, c: nat, d: nat): State
    requires Indices(a, b, c, d)
  {
    Put(s, Quarter(Quad(s[a], s[b], s[c], s[d])), a, b, c, d)
  }

  function UnquarterAt(s: State, a: nat, b: nat, c: nat, d: nat): State
    requires Indices(a, b, c, d)
  {
    Put(s, Unquarter(Quad(s[a], s[b], s[c], s[d])), a, b, c, d)
  }

  lemma QuarterAtInverse(s: State, a: nat, b: nat, c: nat, d: nat)
    requires Indices(a, b, c, d)
    ensures UnquarterAt(QuarterAt(s, a, b, c, d), a, b, c, d) == s
    ensures QuarterAt(UnquarterAt(s, a, b, c, d), a, b, c, d) == s
    ensures forall i :: 0 <= i < 16 && i != a && i != b && i != c && i != d ==> QuarterAt(s, a, b, c, d)[i] == s[i]
  {
    hide Quarter, Unquarter;
    QuarterInverse(Quad(s[a], s[b], s[c], s[d]));
  }

  /** Four column rounds and four diagonal rounds (section 2.3). */
  function DoubleRound(s: State): State {
    var s := QuarterAt(s, 0, 4, 8, 12);
    var s := QuarterAt(s, 1, 5, 9, 13);
    var s := QuarterAt(s, 2, 6, 10, 14);
    var s := QuarterAt(s, 3, 7, 11, 15);
    var s := QuarterAt(s, 0, 5, 10, 15);
    var s := QuarterAt(s, 1, 6, 11, 12);
    var s := QuarterAt(s, 2, 7, 8, 13);
    QuarterAt(s, 3, 4, 9, 14)
  }

  function UndoDoubleRound(s: State): State {
    var s := UnquarterAt(s, 3, 4, 9, 14);
    var s := UnquarterAt(s, 2, 7, 8, 13);
    var s := UnquarterAt(s, 1, 6, 11, 12);
    var s := UnquarterAt(s, 0, 5, 10, 15);
    var s := UnquarterAt(s, 3, 7, 11, 15);
    var s := UnquarterAt(s, 2, 6, 10, 14);
    var s := UnquarterAt(s, 1, 5, 9, 13);
    UnquarterAt(s, 0, 4, 8, 12)
  }

  lemma DoubleRoundInverse(s: State)
    ensures UndoDoubleRound(DoubleRound(s)) == s
    ensures DoubleRound(UndoDoubleRound(s)) == s
  {
    hide QuarterAt, UnquarterAt;
    forall s: State, a: nat, b: nat, c: nat, d: nat | Indices(a, b, c, d)
      ensures UnquarterAt(QuarterAt(s, a, b, c, d), a, b, c, d) == s
      ensures QuarterAt(UnquarterAt(s, a, b, c, d), a, b, c, d) == s
    {
      QuarterAtInverse(s, a, b, c, d);
    }
  }

  function Rounds(s: State, n: nat): State {
    if n == 0 then s else DoubleRound(Rounds(s, n - 1))
  }

  function UndoRounds(s: State, n: nat): State
    decreases n
  {
    if n == 0 then s else UndoRounds(UndoDoubleRound(s), n - 1)
  }

  /** The double rounds are a bijection on the states, for any number of them. */
  lemma {:induction false} RoundsBijective(s: State, n: nat)
    ensures UndoRounds(Rounds(s, n), n) == s
    ensures Rounds(UndoRounds(s, n), n) == s
    decreases n
  {
    hide DoubleRound, UndoDoubleRound;
    if n > 0 {
      DoubleRoundInverse(Rounds(s, n - 1));
      RoundsBijective(s, n - 1);
      DoubleRoundInverse(s);
      RoundsBijective(UndoDoubleRound(s), n - 1);
    }
  }

  /** `_quarter_round`: eight in-place updates of four words of the list. */
  method QuarterRound(state: array<word>, a: nat, b: nat, c: nat, d: nat)
    requires state.Length == 16 && Indices(a, b, c, d)
    modifies state
    ensures state[..] == QuarterAt(old(state[..]), a, b, c, d)
  {
    hide AddWord, XorWord, Rotl32;
    state[a] := AddWord(state[a], state[b]);
    state[d] := Rotl32(XorWord(state[d], state[a]), 16);
    state[c] := AddWord(state[c], state[d]);
    state[b] := Rotl32(XorWord(state[b], state[c]), 12);
    state[a] := AddWord(state[a], state[b]);
    state[d] := Rotl32(XorWord(state[d], state[a]), 8);
    state[c] := AddWord(state[c], state[d]);
    state[b] := Rotl32(XorWord(state[b], state[c]), 7);
  }

  method DoubleRoundInPlace(working: array<word>)
    requires working.Length == 16
    modifies working
    ensures working[..] == DoubleRound(old(working[..]))
  {
    QuarterRound(working, 0, 4, 8, 12);
    QuarterRound(working, 1, 5, 9, 13);
    QuarterRound(working, 2, 6, 10, 14);
    QuarterRound(working, 3, 7, 11, 15);
    QuarterRound(working, 0, 5, 10, 15);
    QuarterRound(working, 1, 6, 11, 12);
    QuarterRound(working, 2, 7, 8, 13);
    QuarterRound(working, 3, 4, 9, 14);
  }

  // ---------------------------------------------------------------- block

  /** Little-endian words of a byte string, four bytes a word. */
  function Words(b: seq<byte>): (r: seq<word>)
    ensures |r| == |b| / 4
  {
    if |b| < 4 then []
    else
      WordBound(b[..4]);
      [FromBytes(b[..4])] + Words(b[4..])
  }

  lemma WordBound(b: seq<byte>)
    requires |b| == 4
    ensures FromBytes(b) < 0x1_0000_0000
  {
    FromBytesBound(b);
    Pow2Values();
  }

  lemma {:induction false} WordsInjective(a: seq<byte>, b: seq<byte>)
    requires |a| == |b| && |a| % 4 == 0 && Words(a) == Words(b)
    ensures a == b
  {
    if |a| >= 4 {
      assert Words(a)[0] == Words(b)[0] && Words(a)[1..] == Words(b)[1..];
      FromBytesInjective(a[..4], b[..4]);
      WordsInjective(a[4..], b[4..]);
      assert a == a[..4] + a[4..] && b == b[..4] + b[4..];
    }
  }

  function InitialState(key: seq<byte>, counter: word, nonce: seq<byte>): State
    requires |key| == 32 && |nonce| == 12
  {
    CONSTANTS + Words(key) + [counter] + Words(nonce)
  }

  /** The sixteen characters that open every block (section 2.3). */
  const SIGMA := "expand 32-byte k"

  function Ascii(text: string): (b: seq<byte>)
    requires forall c <- text :: c as int < 128
    ensures |b| == |text| && forall i :: 0 <= i < |b| ==> b[i] == text[i] as int
  {
    if text == [] then []
    else
      assert text[0] in text;
      assert forall c <- text[1..] :: c in text;
      [text[0] as int] + Ascii(text[1..])
  }

  /** Written out in little-endian bytes the state is the constant text, the key, the counter and the nonce. */
  lemma StateBytes(key: seq<byte>, counter: word, nonce: seq<byte>)
    requires |key| == 32 && |nonce| == 12
    ensures Pack(InitialState(key, counter, nonce)) == Ascii(SIGMA) + key + ToBytes(counter, 4) + nonce
  {
    hide Words, ToBytes, Ascii;
    PackAppend(CONSTANTS, Words(key) + [counter] + Words(nonce));
    PackAppend(Words(key), [counter] + Words(nonce));
    PackAppend([counter], Words(nonce));
    assert InitialState(key, counter, nonce) == CONSTANTS + (Words(key) + ([counter] + Words(nonce)));
    assert Words(key) + [counter] + Words(nonce) == Words(key) + ([counter] + Words(nonce));
    PackWords(key);
    PackWords(nonce);
    ConstantBytes();
    PackOne(counter);
  }

  lemma PackOne(w: word)
    ensures Pack([w]) == ToBytes(w, 4)
  {
    assert [w][1..] == [];
    assert Pack([]) == [];
  }

  lemma {:induction false} PackAppend(s: seq<word>, t: seq<word>)
    ensures Pack(s + t) == Pack(s) + Pack(t)
  {
    if s == [] {
      assert s + t == t;
    } else {
      assert (s + t)[1..] == s[1..] + t;
      PackAppend(s[1..], t);
    }
  }

  lemma {:induction false} PackWords(b: seq<byte>)
    requires |b| % 4 == 0
    ensures Pack(Words(b)) == b
  {
    if b != [] {
      PackWords(b[4..]);
      FourBytes(b[..4]);
      assert Words(b)[1..] == Words(b[4..]);
      assert b == b[..4] + b[4..];
    }
  }

  lemma FourBytes(b: seq<byte>)
    requires |b| == 4
    ensures ToBytes(FromBytes(b), 4) == b
  {
    FromBytesBound(b);
    FromToBytes(FromBytes(b), 4);
    FromBytesInjective(ToBytes(FromBytes(b), 4), b);
  }

  lemma ConstantBytes()
    ensures Pack(CONSTANTS) == Ascii(SIGMA)
  {
    hide ToBytes, Ascii, Pack;
    WordBytes(CONSTANTS[0], 101, 120, 112, 97);
    WordBytes(CONSTANTS[1], 110, 100, 32, 51);
    WordBytes(CONSTANTS[2], 50, 45, 98, 121);
    WordBytes(CONSTANTS[3], 116, 101, 32, 107);
    PackFour(CONSTANTS[0], CONSTANTS[1], CONSTANTS[2], CONSTANTS[3]);
    assert CONSTANTS == [CONSTANTS[0], CONSTANTS[1], CONSTANTS[2], CONSTANTS[3]];
    SigmaCodes();
    assert Pack(CONSTANTS) == Ascii(SIGMA);
  }

  lemma SigmaCodes()
    ensures Ascii(SIGMA) == [101, 120, 112, 97, 110, 100, 32, 51, 50, 45, 98, 121, 116, 101, 32, 107]
  {
    hide Ascii;
    assert |SIGMA| == 16;
  }

  lemma PackFour(a: word, b: word, c: word, d: word)
    ensures Pack([a, b, c, d]) == ToBytes(a, 4) + ToBytes(b, 4) + ToBytes(c, 4) + ToBytes(d, 4)
  {
    hide ToBytes;
    assert [a, b, c, d] == [a] + [b] + [c] + [d];
    PackAppend([a] + [b] + [c], [d]);
    PackAppend([a] + [b], [c]);
    PackAppend([a], [b]);
    PackOne(a);
    PackOne(b);
    PackOne(c);
    PackOne(d);
  }

  lemma WordBytes(w: word, b0: byte, b1: byte, b2: byte, b3: byte)
    requires w == b0 + 0x100 * b1 + 0x1_0000 * b2 + 0x100_0000 * b3
    ensures ToBytes(w, 4) == [b0, b1, b2, b3]
  {
    assert w / 0x100 == b1 + 0x100 * b2 + 0x1_0000 * b3;
    assert w / 0x100 / 0x100 == b2 + 0x100 * b3;
    assert w / 0x100 / 0x100 / 0x100 == b3;
    assert ToBytes(w, 4) == [b0] + ToBytes(w / 0x100, 3);
    assert ToBytes(w / 0x100, 3) == [b1] + ToBytes(w / 0x100 / 0x100, 2);
    assert ToBytes(w / 0x100 / 0x100, 2) == [b2] + ToBytes(b3, 1);
    assert ToBytes(b3, 1) == [b3] + ToBytes(b3 / 0x100, 0);
  }

  /** Key, counter and nonce can all be read off the state behind the rounds. */
  lemma MixedStateInjective(k: seq<byte>, c: word, n: seq<byte>, k': seq<byte>, c': word, n': seq<byte>)
    requires |k| == |k'| == 32 && |n| == |n'| == 12
    requires Rounds(InitialState(k, c, n), 10) == Rounds(InitialState(k', c', n'), 10)
    ensures k == k' && c == c' && n == n'
  {
    hide Rounds, UndoRounds, Words;
    var s, s' := InitialState(k, c, n), InitialState(k', c', n');
    RoundsBijective(s, 10);
    RoundsBijective(s', 10);
    assert s == s';
    assert s[4..12] == Words(k) && s'[4..12] == Words(k');
    assert s[12] == c && s'[12] == c';
    assert s[13..] == Words(n) && s'[13..] == Words(n');
    WordsInjective(k, k');
    WordsInjective(n, n');
  }

  function Pack(s: seq<word>): (b: seq<byte>)
    ensures |b| == 4 * |s|
  {
    if s == [] then [] else ToBytes(s[0], 4) + Pack(s[1..])
  }

  function Sum(s: State, t: State): State {
    seq(16, i requires 0 <= i < 16 => AddWord(s[i], t[i]))
  }

  /** The 64 keystream bytes of one counter value (section 2.3). */
  function Keystream(key: seq<byte>, counter: word, nonce: seq<byte>): (b: seq<byte>)
    requires |key| == 32 && |nonce| == 12
    ensures |b| == 64
  {
    var s := InitialState(key, counter, nonce);
    Pack(Sum(Rounds(s, 10), s))
  }

  function BlockError(key: seq<byte>, counter: int, nonce: seq<byte>): Option<CipherError> {
    if |key| != 32 then Some(BadKey)
    else if |nonce| != 12 then Some(BadNonce)
    else if !(0 <= counter <= MAX_COUNTER) then Some(BadCounter)
    else None
  }

  function Block(key: seq<byte>, counter: int, nonce: seq<byte>): Result<seq<byte>, CipherError> {
    match BlockError(key, counter, nonce)
    case Some(e) => Err(e)
    case None => Ok(Keystream(key, counter, nonce))
  }

  /** `_chacha20_block`. */
  method ChaChaBlock(key: seq<byte>, counter: int, nonce: seq<byte>) returns (r: Result<seq<byte>, CipherError>)
    ensures r == Block(key, counter, nonce)
  {
    hide DoubleRound, InitialState;
    if |key| != 32 { return Err(BadKey); }
    if |nonce| != 12 { return Err(BadNonce); }
    if !(0 <= counter <= MAX_COUNTER) { return Err(BadCounter); }
    var state: State := InitialState(key, counter, nonce);
    var working := new word[16](i requires 0 <= i < 16 => state[i]);
    assert working[..] == state;
    for i := 0 to 10
      invariant working[..] == Rounds(state, i)
    {
      DoubleRoundInPlace(working);
    }
    ghost var mixed := Rounds(state, 10);
    for i := 0 to 16
      invariant forall j :: 0 <= j < i ==> working[j] == AddWord(mixed[j], state[j])
      invariant forall j :: i <= j < 16 ==> working[j] == mixed[j]
    {
      working[i] := AddWord(working[i], state[i]);
    }
    assert working[..] == Sum(mixed, state);
    var out := [];
    for i := 0 to 16
      invariant out + Pack(working[i..]) == Keystream(key, counter, nonce)
    {
      assert working[i..][0] == working[i] && working[i..][1..] == working[i + 1..];
      out := out + ToBytes(working[i], 4);
    }
    assert working[16..] == [] && Pack([]) == [];
    assert out == out + Pack([]) == Keystream(key, counter, nonce);
    r := Ok(out);
  }

  // ---------------------------------------------------------------- stream

  /** The counter of the block that covers the last byte of a non-empty text. */
  function LastCounter(counter: int, n: nat): int
    requires n > 0
  {
    counter + (n - 1) / 64
  }

  function StreamByte(key: seq<byte>, counter: int, nonce: seq<byte>, data: seq<byte>, i: nat): byte
    requires |key| == 32 && |nonce| == 12 && i < |data|
    requires 0 <= counter && LastCounter(counter, |data|) <= MAX_COUNTER
  {
    XorByte(data[i], Keystream(key, counter + i / 64, nonce)[i % 64])
  }

  /** Section 2.4: byte i meets keystream byte i mod 64 of block `counter + i / 64`. */
  function Stream(key: seq<byte>, counter: int, nonce: seq<byte>, data: seq<byte>): (r: Result<seq<byte>, CipherError>)
    ensures r.Ok? ==> |r.value| == |data|
    ensures r.Ok? <==>
            (data == [] ||
             (|key| == 32 && |nonce| == 12 && 0 <= counter && LastCounter(counter, |data|) <= MAX_COUNTER))
  {
    if data == [] then Ok([])
    else if |key| != 32 then Err(BadKey)
    else if |nonce| != 12 then Err(BadNonce)
    else if counter < 0 || LastCounter(counter, |data|) > MAX_COUNTER then Err(BadCounter)
    else Ok(seq(|data|, i requires 0 <= i < |data| => StreamByte(key, counter, nonce, data, i)))
  }

  /** `_chacha20_xor`. */
  method ChaChaXor(key: seq<byte>, counter: int, nonce: seq<byte>, data: seq<byte>)
    returns (r: Result<seq<byte>, CipherError>)
    ensures r == Stream(key, counter, nonce, data)
  {
    hide Keystream, XorByte;
    var out: seq<byte> := [];
    var blockCounter := counter;
    var offset := 0;
    while offset < |data|
      invariant offset % 64 == 0 && blockCounter == counter + offset / 64
      invariant |out| == if offset <= |data| then offset else |data|
      invariant offset < |data| + 64
      invariant offset > 0 ==> |key| == 32 && |nonce| == 12 && 0 <= counter && blockCounter - 1 <= MAX_COUNTER
      invariant forall i ::
                0 <= i < |out| ==> out[i] == XorByte(data[i], Keystream(key, counter + i / 64, nonce)[i % 64])
    {
      var block := ChaChaBlock(key, blockCounter, nonce);
      if block.Err? {
        return Err(block.error);
      }
      var end := if offset + 64 <= |data| then offset + 64 else |data|;
      var chunk := data[offset..end];
      out := out + seq(|chunk|, i requires 0 <= i < |chunk| => XorByte(chunk[i], block.value[i]));
      blockCounter := blockCounter + 1;
      offset := offset + 64;
    }
    r := Ok(out);
    assert data != [] ==> out == Stream(key, counter, nonce, data).value;
  }

  /** Applying the same keystream twice gives the data back. */
  lemma StreamInvolution(key: seq<byte>, counter: int, nonce: seq<byte>, data: seq<byte>)
    requires Stream(key, counter, nonce, data).Ok?
    ensures Stream(key, counter, nonce, Stream(key, counter, nonce, data).value) == Ok(data)
  {
    var once := Stream(key, counter, nonce, data).value;
    if data != [] {
      forall i | 0 <= i < |data| ensures StreamByte(key, counter, nonce, once, i) == data[i] {
        XorInvolution(data[i], Keystream(key, counter + i / 64, nonce)[i % 64]);
      }
      assert Stream(key, counter, nonce, once).value == data;
    }
  }
}
