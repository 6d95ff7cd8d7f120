/** The unpadded base-32 text of a provisioning secret, and its decoding as in section 6 of
    RFC 4648. */
module Base32 {

  type Byte = n: nat | n < 256

  type Bit = n: nat | n < 2

  const ALPHABET := "ABCDEFGHIJKLMNOPQRSTUVWXYZ234567"

  // ---------------------------------------------------------------------------
  // Bits
  // ---------------------------------------------------------------------------

  function Power(w: nat): (p: nat)
    ensures p > 0
  {
    if w == 0 then 1 else 2 * Power(w - 1)
  }

  /** The w lowest bits of n, most significant first. */
  function ToBits(n: nat, w: nat): (bits: seq<Bit>)
    ensures |bits| == w
  {
    if w == 0 then [] else ToBits(n / 2, w - 1) + [n % 2]
  }

  function Value(bits: seq<Bit>): nat {
    if bits == [] then 0 else 2 * Value(bits[..|bits| - 1]) + bits[|bits| - 1]
  }

  lemma {:induction false} ValueOfBits(n: nat, w: nat)
    requires n < Power(w)
    ensures Value(ToBits(n, w)) == n
  {
    if w > 0 {
      ValueOfBits(n / 2, w - 1);
      assert ToBits(n, w)[..w - 1] == ToBits(n / 2, w - 1);
    }
  }

  lemma {:induction false} BitsOfValue(bits: seq<Bit>)
    ensures Value(bits) < Power(|bits|)
    ensures ToBits(Value(bits), |bits|) == bits
  {
    if bits != [] {
      BitsOfValue(bits[..|bits| - 1]);
      assert bits == bits[..|bits| - 1] + [bits[|bits| - 1]];
    }
  }

  // ---------------------------------------------------------------------------
  // Encoding
  // ---------------------------------------------------------------------------

  function ByteBits(buffer: seq<Byte>): (bits: seq<Bit>)
    ensures |bits| == 8 * |buffer|
  {
    if buffer == [] then [] else ByteBits(buffer[..|buffer| - 1]) + ToBits(buffer[|buffer| - 1], 8)
  }

  /** Five bits from position i, padded with zeros at the end. */
  function Quintet(bits: seq<Bit>, i: nat): (q: seq<Bit>)
    ensures |q| == 5
  {
    seq(5, t requires 0 <= t < 5 => if i + t < |bits| then bits[i + t] else 0)
  }

  function Letter(bits: seq<Bit>, i: nat): char {
    BitsOfValue(Quintet(bits, i));
    assert Power(5) == 32 by { PowersUsed(); }
    ALPHABET[Value(Quintet(bits, i))]
  }

  lemma PowersUsed()
    ensures Power(5) == 32 && Power(8) == 256
  {
  }

  /** The letters of the quintets that start before the end of the bits. */
  function Encoded(buffer: seq<Byte>): (text: string)
    ensures |text| == (8 * |buffer| + 4) / 5
  {
    var bits := ByteBits(buffer);
    seq((|bits| + 4) / 5, k requires 0 <= k < (|bits| + 4) / 5 => Letter(bits, 5 * k))
  }

  /** The two loops: bytes to bits, then bits to letters five at a time. */
  method Encode(buffer: seq<Byte>) returns (output: string)
    ensures output == Encoded(buffer)
  {
    var bits: seq<Bit> := [];
    for b := 0 to |buffer|
      invariant bits == ByteBits(buffer[..b])
    {
      bits := bits + ToBits(buffer[b], 8);
      assert buffer[..b + 1][..b] == buffer[..b];
    }
    assert buffer[..|buffer|] == buffer;
    output := "";
    var i := 0;
    while i < |bits|
      invariant 0 <= i && i % 5 == 0 && |output| == i / 5
      invariant i < |bits| + 5
      invariant forall k :: 0 <= k < |output| ==> output[k] == Letter(bits, 5 * k)
      decreases |bits| - i
    {
      output := output + [Letter(bits, i)];
      i := i + 5;
    }
  }

  // ---------------------------------------------------------------------------
  // Decoding
  // ---------------------------------------------------------------------------

  predicate InAlphabet(c: char) {
    'A' <= c <= 'Z' || '2' <= c <= '7'
  }

  function Index(c: char): (n: nat)
    requires InAlphabet(c)
    ensures n < 32
  {
    if c <= '7' then c as int - '2' as int + 26 else c as int - 'A' as int
  }

  function LetterBits(text: string): (bits: seq<Bit>)
    requires forall c <- text :: InAlphabet(c)
    ensures |bits| == 5 * |text|
  {
    if text == "" then [] else LetterBits(text[..|text| - 1]) + ToBits(Index(text[|text| - 1]), 5)
  }

  /** Whole bytes are taken from the concatenated groups; leftover bits are dropped. */
  function Decoded(text: string): (buffer: seq<Byte>)
    requires forall c <- text :: InAlphabet(c)
  {
    var bits := LetterBits(text);
    seq(|bits| / 8, j requires 0 <= j < |bits| / 8 => ByteAt(bits, 8 * j))
  }

  function ByteAt(bits: seq<Bit>, i: nat): Byte
    requires i + 8 <= |bits|
  {
    BitsOfValue(bits[i..i + 8]);
    PowersUsed();
    Value(bits[i..i + 8])
  }

  lemma AlphabetIndex(n: nat)
    requires n < 32
    ensures InAlphabet(ALPHABET[n]) && Index(ALPHABET[n]) == n
  {
  }

  lemma {:induction false} ByteBitsAt(buffer: seq<Byte>, j: nat)
    requires j < |buffer|
    ensures ByteBits(buffer)[8 * j..8 * j + 8] == ToBits(buffer[j], 8)
  {
    var last := |buffer| - 1;
    if j < last {
      ByteBitsAt(buffer[..last], j);
      assert ByteBits(buffer)[8 * j..8 * j + 8] == ByteBits(buffer[..last])[8 * j..8 * j + 8];
    } else {
      assert |ByteBits(buffer[..last])| == 8 * j;
    }
  }

  lemma {:induction false} LetterBitsAt(text: string, k: nat)
    requires k < |text| && forall c <- text :: InAlphabet(c)
    ensures LetterBits(text)[5 * k..5 * k + 5] == ToBits(Index(text[k]), 5)
  {
    var last := |text| - 1;
    if k < last {
      LetterBitsAt(text[..last], k);
      assert LetterBits(text)[5 * k..5 * k + 5] == LetterBits(text[..last])[5 * k..5 * k + 5];
    } else {
      assert |LetterBits(text[..last])| == 5 * k;
    }
  }

  lemma LettersAreInAlphabet(buffer: seq<Byte>)
    ensures forall c <- Encoded(buffer) :: InAlphabet(c)
  {
    var bits := ByteBits(buffer);
    forall k | 0 <= k < |Encoded(buffer)| ensures InAlphabet(Encoded(buffer)[k]) {
      BitsOfValue(Quintet(bits, 5 * k));
      PowersUsed();
      AlphabetIndex(Value(Quintet(bits, 5 * k)));
    }
  }

  /** A letter holds its quintet. */
  lemma LetterHoldsQuintet(buffer: seq<Byte>, k: nat)
    requires k < |Encoded(buffer)| && InAlphabet(Encoded(buffer)[k])
    ensures ToBits(Index(Encoded(buffer)[k]), 5) == Quintet(ByteBits(buffer), 5 * k)
  {
    hide Quintet, ByteBits, Value, ToBits, Power;
    var q := Quintet(ByteBits(buffer), 5 * k);
    BitsOfValue(q);
    PowersUsed();
    AlphabetIndex(Value(q));
  }

  /** The letters hold the bits of the buffer, padded. */
  lemma DecodedBits(buffer: seq<Byte>, i: nat)
    requires forall c <- Encoded(buffer) :: InAlphabet(c)
    requires i < 8 * |buffer|
    ensures i < |LetterBits(Encoded(buffer))| && LetterBits(Encoded(buffer))[i] == ByteBits(buffer)[i]
  {
    hide Encoded, LetterBits, ByteBits, ToBits;
    var text, bits, k := Encoded(buffer), ByteBits(buffer), i / 5;
    assert text[k] in text;
    LetterBitsAt(text, k);
    LetterHoldsQuintet(buffer, k);
    assert LetterBits(text)[5 * k..5 * k + 5][i - 5 * k] == Quintet(bits, 5 * k)[i - 5 * k];
  }

  /** Every buffer is recovered from its text, whose length is the least that can hold it. */
  lemma DecodingRecovers(buffer: seq<Byte>)
    ensures (forall c <- Encoded(buffer) :: InAlphabet(c)) && Decoded(Encoded(buffer)) == buffer
    ensures 5 * (|Encoded(buffer)| - 1) < 8 * |buffer| <= 5 * |Encoded(buffer)|
  {
    LettersAreInAlphabet(buffer);
    var text := Encoded(buffer);
    var bits := LetterBits(text);
    assert |bits| / 8 == |buffer|;
    forall j | 0 <= j < |buffer| ensures Decoded(text)[j] == buffer[j] {
      forall i | 8 * j <= i < 8 * j + 8 ensures bits[i] == ByteBits(buffer)[i] {
        DecodedBits(buffer, i);
      }
      assert bits[8 * j..8 * j + 8] == ByteBits(buffer)[8 * j..8 * j + 8];
      ByteBitsAt(buffer, j);
      PowersUsed();
      ValueOfBits(buffer[j], 8);
    }
  }
}
