/**
 The base encodings against sections 4 to 6 of RFC 4648: the characters of a text, read as digits of the alphabet's
 base, spell the same number as the bytes, shifted by the zero bits that fill the last character.
 */
module Rfc4648 {
  import opened Models
  import opened Bits
  import Base32
  import Base64

  const UPPER: string := "ABCDEFGHIJKLMNOPQRSTUVWXYZ"
  const LOWER: string := "abcdefghijklmnopqrstuvwxyz"
  const DIGITS: string := "0123456789"

  const ALPHABET_32: string := UPPER + "234567"
  const ALPHABET_64: string := UPPER + LOWER + DIGITS + "+/"
  const ALPHABET_64_URL: string := UPPER + LOWER + DIGITS + "-_"

  /** The number whose digits, most significant first, are these. */
  function NumberOf(digits: seq<nat>, base: nat): nat {
    if digits == [] then 0 else NumberOf(digits[..|digits| - 1], base) * base + digits[|digits| - 1]
  }

  /** The number with k zero bits appended. */
  function Shifted(n: nat, k: nat): nat { n * Pow2(k) }

  lemma Twice(x: nat, p: nat)
    ensures x * (2 * p) == 2 * (x * p)
  {
  }

  lemma {:induction false} BitsOfConcat(a: seq<bool>, b: seq<bool>)
    ensures FromBits(a + b) == FromBits(a) * Pow2(|b|) + FromBits(b)
  {
    if b == [] {
      assert a + b == a;
    } else {
      var n := |b| - 1;
      assert (a + b)[..|a + b| - 1] == a + b[..n] && (a + b)[|a + b| - 1] == b[n];
      BitsOfConcat(a, b[..n]);
      Twice(FromBits(a), Pow2(n));
    }
  }

  lemma {:induction false} BitsOfZeros(n: nat)
    ensures FromBits(Zeros(n)) == 0
  {
    if n > 0 {
      assert Zeros(n)[..n - 1] == Zeros(n - 1);
      BitsOfZeros(n - 1);
    }
  }

  lemma {:induction false} SpreadConcat(words: seq<nat>, w: nat, k: nat)
    ensures Spread(words + [w], k) == Spread(words, k) + ToBits(w, k)
  {
    if words == [] {
      assert ([w])[1..] == [] && words + [w] == [w];
    } else {
      assert (words + [w])[1..] == words[1..] + [w] && (words + [w])[0] == words[0];
      SpreadConcat(words[1..], w, k);
      assert Spread(words + [w], k) == ToBits(words[0], k) + (Spread(words[1..], k) + ToBits(w, k));
    }
  }

  /** The bits of words laid out one after the other spell the number that the words spell. */
  lemma {:induction false} SpreadNumber(words: seq<nat>, k: nat)
    requires Fit(words, k)
    ensures FromBits(Spread(words, k)) == NumberOf(words, Pow2(k))
  {
    if words != [] {
      var n := |words| - 1;
      SpreadNumber(words[..n], k);
      assert words == words[..n] + [words[n]];
      SpreadConcat(words[..n], words[n], k);
      BitsOfConcat(Spread(words[..n], k), ToBits(words[n], k));
      FromToBits(words[n], k);
    }
  }

  /** So do the groups that they are cut into, once the last one is filled. */
  lemma GroupNumber(bits: seq<bool>, k: nat)
    requires k > 0
    ensures NumberOf(Group(bits, k), Pow2(k)) == FromBits(bits) * Pow2(Fill(bits, k))
  {
    SpreadGroup(bits, k);
    SpreadNumber(Group(bits, k), k);
    BitsOfConcat(bits, Zeros(Fill(bits, k)));
    BitsOfZeros(Fill(bits, k));
  }

  lemma RegroupNumber(b: Bytes, k: nat)
    requires k > 0
    ensures NumberOf(Group(Spread(b, 8), k), Pow2(k)) == Shifted(NumberOf(b, 256), Fill(Spread(b, 8), k))
    ensures |Group(Spread(b, 8), k)| * k == 8 * |b| + Fill(Spread(b, 8), k)
  {
    assert Pow2(8) == 256;
    GroupNumber(Spread(b, 8), k);
    SpreadNumber(b, 8);
    SpreadGroup(Spread(b, 8), k);
    SpreadLength(Group(Spread(b, 8), k), k);
    SpreadLength(b, 8);
  }

  // ------------------------------------------------------------ the alphabets

  lemma Letters(d: nat)
    ensures d < 26 ==> UPPER[d] == ('A' as int + d) as char && LOWER[d] == ('a' as int + d) as char
    ensures d < 10 ==> DIGITS[d] == ('0' as int + d) as char
  {
  }

  lemma Alphabet32(d: nat)
    requires d < 32
    ensures Base32.CharOf(d) == ALPHABET_32[d]
  {
    if d < 26 {
      Letters(d);
      assert ALPHABET_32[d] == UPPER[d];
    }
  }

  lemma Alphabet64(d: nat)
    requires d < 64
    ensures Base64.CharOf(Base64.STD, d) == ALPHABET_64[d]
    ensures Base64.CharOf(Base64.URL, d) == ALPHABET_64_URL[d]
  {
    if d < 26 {
      Letters(d);
      assert ALPHABET_64[d] == ALPHABET_64_URL[d] == UPPER[d];
    } else if d < 52 {
      Letters(d - 26);
      assert ALPHABET_64[d] == ALPHABET_64_URL[d] == LOWER[d - 26];
    } else if d < 62 {
      Letters(d - 52);
      assert ALPHABET_64[d] == ALPHABET_64_URL[d] == DIGITS[d - 52];
    }
  }

  /** The text is written in the alphabet, with these digits. */
  ghost predicate Writes(text: string, alphabet: string, digits: seq<nat>) {
    && |digits| == |text|
    && forall i :: 0 <= i < |text| ==> digits[i] < |alphabet| && text[i] == alphabet[digits[i]]
  }

  // ------------------------------------------------------------ the encodings

  /** Base32: the digits spell the bytes' number, shifted by fewer than five bits. */
  lemma Base32Number(b: Bytes) returns (digits: seq<nat>)
    ensures Writes(Base32.Encode(b), ALPHABET_32, digits)
    ensures 0 <= 5 * |digits| - 8 * |b| < 5
    ensures NumberOf(digits, 32) == Shifted(NumberOf(b, 256), 5 * |digits| - 8 * |b|)
  {
    digits := Group(Spread(b, 8), 5);
    assert Pow2(5) == 32;
    RegroupNumber(b, 5);
    forall i | 0 <= i < |digits|
      ensures Base32.Encode(b)[i] == ALPHABET_32[digits[i]]
    {
      Alphabet32(digits[i]);
    }
  }

  /** Base64, in the standard and the URL alphabet: the same with six bits. */
  lemma Base64Number(b: Bytes) returns (digits: seq<nat>)
    ensures Writes(Base64.Encode(Base64.STD, b), ALPHABET_64, digits)
    ensures Writes(Base64.Encode(Base64.URL, b), ALPHABET_64_URL, digits)
    ensures 0 <= 6 * |digits| - 8 * |b| < 6
    ensures NumberOf(digits, 64) == Shifted(NumberOf(b, 256), 6 * |digits| - 8 * |b|)
  {
    digits := Group(Spread(b, 8), 6);
    assert Pow2(6) == 64;
    RegroupNumber(b, 6);
    forall i | 0 <= i < |digits|
      ensures Base64.Encode(Base64.STD, b)[i] == ALPHABET_64[digits[i]]
      ensures Base64.Encode(Base64.URL, b)[i] == ALPHABET_64_URL[digits[i]]
    {
      Alphabet64(digits[i]);
    }
  }

  // ------------------------------------------------------------ and no other text does

  lemma {:induction false} NumberDeterminesDigits(a: seq<nat>, b: seq<nat>, base: nat)
    requires |a| == |b| && NumberOf(a, base) == NumberOf(b, base)
    requires forall i :: 0 <= i < |a| ==> a[i] < base && b[i] < base
    ensures a == b
  {
    if a != [] {
      var n := |a| - 1;
      LastDigit(NumberOf(a[..n], base), a[n], NumberOf(b[..n], base), b[n], base);
      NumberDeterminesDigits(a[..n], b[..n], base);
      assert a == a[..n] + [a[n]] && b == b[..n] + [b[n]];
    }
  }

  lemma Larger(x: nat, y: nat, base: nat)
    requires x < y
    ensures x * base + base <= y * base
  {
    assert y * base == x * base + (y - x) * base;
    assert (y - x) * base == base + (y - x - 1) * base;
  }

  lemma LastDigit(x: nat, d: nat, y: nat, e: nat, base: nat)
    requires x * base + d == y * base + e && d < base && e < base
    ensures x == y && d == e
  {
    if x < y {
      Larger(x, y, base);
    } else if y < x {
      Larger(y, x, base);
    }
  }

  /** Two texts of the same length whose digits spell the same number are the same text. */
  lemma SameText(text: string, other: string, alphabet: string, a: seq<nat>, b: seq<nat>)
    requires Writes(text, alphabet, a) && Writes(other, alphabet, b)
    requires |a| == |b| && NumberOf(a, |alphabet|) == NumberOf(b, |alphabet|)
    ensures text == other
  {
    NumberDeterminesDigits(a, b, |alphabet|);
  }

  lemma AlphabetSizes()
    ensures |ALPHABET_32| == 32 && |ALPHABET_64| == 64 && |ALPHABET_64_URL| == 64
  {
  }

  /** A text of the alphabet whose digits spell the bytes' number in this way is the encoding. */
  lemma Base32Only(b: Bytes, text: string, digits: seq<nat>)
    requires Writes(text, ALPHABET_32, digits) && 0 <= 5 * |digits| - 8 * |b| < 5
    requires NumberOf(digits, 32) == Shifted(NumberOf(b, 256), 5 * |digits| - 8 * |b|)
    ensures text == Base32.Encode(b)
  {
    hide *;
    AlphabetSizes();
    var own := Base32Number(b);
    SameText(text, Base32.Encode(b), ALPHABET_32, digits, own);
  }

  lemma Base64Only(b: Bytes, url: bool, text: string, digits: seq<nat>)
    requires Writes(text, if url then ALPHABET_64_URL else ALPHABET_64, digits) && 0 <= 6 * |digits| - 8 * |b| < 6
    requires NumberOf(digits, 64) == Shifted(NumberOf(b, 256), 6 * |digits| - 8 * |b|)
    ensures text == Base64.Encode(if url then Base64.URL else Base64.STD, b)
  {
    hide *;
    AlphabetSizes();
    var own := Base64Number(b);
    if url {
      SameText(text, Base64.Encode(Base64.URL, b), ALPHABET_64_URL, digits, own);
    } else {
      SameText(text, Base64.Encode(Base64.STD, b), ALPHABET_64, digits, own);
    }
  }
}
