/** Unpadded base32 (section 6 of RFC 4648) as Go's `encoding/base32` writes and reads it. */
module Base32 {
  import opened Models
  import opened Bits
  import Base64

  function CharOf(d: nat): char
    requires d < 32
  {
    if d < 26 then ('A' as int + d) as char else ('2' as int + d - 26) as char
  }

  function DigitOf(c: char): (d: Option<nat>)
    ensures d.Some? ==> d.value < 32
  {
    if 'A' <= c <= 'Z' then Some(c as int - 'A' as int)
    else if '2' <= c <= '7' then Some(c as int - '2' as int + 26)
    else None
  }

  predicate AllDigits(text: string) {
    forall i :: 0 <= i < |text| ==> DigitOf(text[i]).Some?
  }

  function Encode(b: Bytes): string {
    var digits := Group(Spread(b, 8), 5);
    assert Pow2(5) == 32;
    seq(|digits|, i requires 0 <= i < |digits| => CharOf(digits[i]))
  }

  function Digits(text: string): (d: seq<nat>)
    requires AllDigits(text)
    ensures Fit(d, 5) && |d| == |text|
  {
    assert Pow2(5) == 32;
    seq(|text|, i requires 0 <= i < |text| => DigitOf(text[i]).value)
  }

  /** A last group of 1, 3 or 6 characters, which no encoder writes, yields no bytes at all. */
  function Usable(length: nat): (n: nat)
    ensures n <= length
  {
    if length % 8 in {1, 3, 6} then length - length % 8 else length
  }

  function Decode(text: string): Option<Bytes> {
    var t := Base64.WithoutNewlines(text);
    if !AllDigits(t) then None
    else Some(Base64.Octets(Gather(Spread(Digits(t[..Usable(|t|)]), 5), 8)))
  }

  lemma EncodeUsesAlphabet(b: Bytes)
    ensures AllDigits(Encode(b)) && Digits(Encode(b)) == Group(Spread(b, 8), 5)
  {
    assert Pow2(5) == 32;
  }

  lemma EncodeLength(b: Bytes)
    ensures |Encode(b)| == (8 * |b| + 4) / 5
    ensures Usable(|Encode(b)|) == |Encode(b)|
  {
    SpreadLength(b, 8);
    GroupLength(Spread(b, 8), 5);
  }

  /** Decoding undoes encoding for every byte sequence. */
  lemma DecodeEncode(b: Bytes)
    ensures Decode(Encode(b)) == Some(b)
  {
    EncodeUsesAlphabet(b);
    EncodeLength(b);
    var t := Encode(b);
    assert forall i :: 0 <= i < |t| ==> !Base64.IsNewline(t[i]);
    assert t[..|t|] == t;
    Base64.BytesFit(b);
    Regroup(b, 8, 5);
  }
}
