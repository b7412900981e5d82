/** Base64 text as Go's `encoding/base64` and the browser's `btoa` and `atob` produce and read it. */
module Base64 {
  import opened Models
  import opened Bits

  /** The two characters that differ between the standard and the URL alphabet, and nothing else. */
  datatype Alphabet = Alphabet(c62: char, c63: char)
  const STD := Alphabet('+', '/')
  const URL := Alphabet('-', '_')

  predicate IsBase64(a: Alphabet) { a == STD || a == URL }

  function CharOf(a: Alphabet, d: nat): char
    requires d < 64
  {
    if d < 26 then ('A' as int + d) as char
    else if d < 52 then ('a' as int + d - 26) as char
    else if d < 62 then ('0' as int + d - 52) as char
    else if d == 62 then a.c62
    else a.c63
  }

  function DigitOf(a: Alphabet, c: char): (d: Option<nat>)
    ensures d.Some? ==> d.value < 64
  {
    if 'A' <= c <= 'Z' then Some(c as int - 'A' as int)
    else if 'a' <= c <= 'z' then Some(c as int - 'a' as int + 26)
    else if '0' <= c <= '9' then Some(c as int - '0' as int + 52)
    else if c == a.c62 then Some(62)
    else if c == a.c63 then Some(63)
    else None
  }

  /** Every character of the text is in the alphabet. */
  predicate AllDigits(a: Alphabet, text: string) {
    forall i :: 0 <= i < |text| ==> DigitOf(a, text[i]).Some?
  }

  function Text(a: Alphabet, digits: seq<nat>): (t: string)
    requires Fit(digits, 6)
  {
    seq(|digits|, i requires 0 <= i < |digits| => assert digits[i] < Pow2(6) == 64; CharOf(a, digits[i]))
  }

  function Digits(a: Alphabet, text: string): (d: seq<nat>)
    requires AllDigits(a, text)
    ensures Fit(d, 6)
  {
    assert Pow2(6) == 64;
    seq(|text|, i requires 0 <= i < |text| => DigitOf(a, text[i]).value)
  }

  function Octets(words: seq<nat>): (b: Bytes)
    requires Fit(words, 8)
    ensures b == words
  {
    assert Pow2(8) == 256;
    seq(|words|, i requires 0 <= i < |words| => words[i])
  }

  /** Raw (unpadded) encoding: section 5 of RFC 4648 without the pad characters. */
  function Encode(a: Alphabet, b: Bytes): string {
    Text(a, Group(Spread(b, 8), 6))
  }

  /** Left-over bits of the last group are dropped, whatever they are. */
  function DecodeDigits(a: Alphabet, text: string): Bytes
    requires AllDigits(a, text)
  {
    Octets(Gather(Spread(Digits(a, text), 6), 8))
  }

  lemma BytesFit(b: Bytes)
    ensures Fit(b, 8)
  {
    assert Pow2(8) == 256;
  }

  lemma EncodeUsesAlphabet(a: Alphabet, b: Bytes)
    requires IsBase64(a)
    ensures AllDigits(a, Encode(a, b))
    ensures Digits(a, Encode(a, b)) == Group(Spread(b, 8), 6)
  {
    assert Pow2(6) == 64;
  }

  /** Decoding undoes encoding, for every byte sequence and either alphabet. */
  lemma DecodeEncode(a: Alphabet, b: Bytes)
    requires IsBase64(a)
    ensures AllDigits(a, Encode(a, b)) && DecodeDigits(a, Encode(a, b)) == b
  {
    EncodeUsesAlphabet(a, b);
    BytesFit(b);
    Regroup(b, 8, 6);
  }

  /** Different byte sequences have different texts, which is what an index key needs. */
  lemma EncodeInjective(a: Alphabet, b: Bytes, c: Bytes)
    requires IsBase64(a) && Encode(a, b) == Encode(a, c)
    ensures b == c
  {
    DecodeEncode(a, b);
    DecodeEncode(a, c);
  }

  /** The encoded length never leaves a remainder of 1, and the fill is 0, 2 or 4 bits. */
  lemma EncodeLength(a: Alphabet, b: Bytes)
    ensures |Encode(a, b)| == (8 * |b| + 5) / 6
    ensures |Encode(a, b)| % 4 != 1
  {
    SpreadLength(b, 8);
    GroupLength(Spread(b, 8), 6);
  }

  // ---------------------------------------------------------------- strict decoding (Go)

  predicate IsNewline(c: char) { c == '\r' || c == '\n' }

  /** Go's decoders skip carriage returns and line feeds, in strict mode too. */
  function WithoutNewlines(text: string): (t: string)
    ensures (forall i :: 0 <= i < |text| ==> !IsNewline(text[i])) ==> t == text
  {
    if text == [] then []
    else (if IsNewline(text[0]) then [] else [text[0]]) + WithoutNewlines(text[1..])
  }

  /**
   `RawStdEncoding.Strict().DecodeString`: rejects pad characters, a remainder of one character and
   left-over bits that are not zero.
   */
  function StrictDecode(text: string): Option<Bytes> {
    var t := WithoutNewlines(text);
    if !AllDigits(STD, t) || |t| % 4 == 1 then None
    else
      var bits := Spread(Digits(STD, t), 6);
      var bytes := DecodeDigits(STD, t);
      if AllZero(bits, 8 * |bytes|) then Some(bytes) else None
  }

  predicate AllZero(bits: seq<bool>, from: nat) {
    forall i :: from <= i < |bits| ==> !bits[i]
  }

  lemma StrictDecodeEncode(b: Bytes)
    ensures StrictDecode(Encode(STD, b)) == Some(b)
  {
    EncodeUsesAlphabet(STD, b);
    DecodeEncode(STD, b);
    EncodeLength(STD, b);
    SpreadGroup(Spread(b, 8), 6);
    SpreadLength(b, 8);
  }
}
