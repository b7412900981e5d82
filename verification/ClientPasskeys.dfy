/** Base64url in the browser client, and its agreement with the server's raw URL encoding. */
module ClientPasskeys {
  import opened Models
  import opened Bits
  import opened Base64

  /** `value.replace(/from/g, to)` for one character. */
  function Replace(s: string, from: char, to: char): (r: string)
    ensures |r| == |s|
    ensures forall i :: 0 <= i < |s| ==> r[i] == if s[i] == from then to else s[i]
  {
    seq(|s|, i requires 0 <= i < |s| => if s[i] == from then to else s[i])
  }

  /** `value.replace(/=+$/, "")`. */
  function StripPad(s: string): (r: string)
    ensures r <= s
    ensures r != [] ==> r[|r| - 1] != '='
  {
    if s != [] && s[|s| - 1] == '=' then StripPad(s[..|s| - 1]) else s
  }

  /** `value.padEnd(length, "=")`. */
  function PadEnd(s: string, length: nat): string {
    if length <= |s| then s else s + Pad(length - |s|)
  }

  function Pad(n: nat): (p: string)
    ensures |p| == n && forall i :: 0 <= i < n ==> p[i] == '='
  {
    seq(n, _ => '=')
  }

  /** A "binary string" holds one byte per character; `btoa` and `atob` work on those. */
  function Binary(b: Bytes): string {
    seq(|b|, i requires 0 <= i < |b| => b[i] as char)
  }

  predicate IsBinary(s: string) { forall i :: 0 <= i < |s| ==> s[i] as int < 256 }

  function CharCodes(s: string): Bytes
    requires IsBinary(s)
  {
    seq(|s|, i requires 0 <= i < |s| => s[i] as int)
  }

  /** `btoa`: standard alphabet, padded to a multiple of four. */
  function Btoa(binary: string): string
    requires IsBinary(binary)
  {
    var raw := Encode(STD, CharCodes(binary));
    raw + Pad((4 - |raw| % 4) % 4)
  }

  function WithoutSpace(s: string): (r: string)
    ensures (forall i :: 0 <= i < |s| ==> s[i] !in " \t\r\n\U{000C}") ==> r == s
  {
    if s == [] then [] else (if s[0] in " \t\r\n\U{000C}" then [] else [s[0]]) + WithoutSpace(s[1..])
  }

  /** Up to two pad characters are dropped, and only from text whose length is a multiple of four. */
  function Unpad(s: string): string {
    if s == [] || |s| % 4 != 0 || s[|s| - 1] != '=' then s
    else if s[|s| - 2] != '=' then s[..|s| - 1]
    else s[..|s| - 2]
  }

  /** `atob`: the forgiving-base64 decode of the WHATWG Infra standard; `None` is its exception. */
  function Atob(text: string): Option<Bytes> {
    var t := Unpad(WithoutSpace(text));
    if |t| % 4 == 1 || !AllDigits(STD, t) then None else Some(DecodeDigits(STD, t))
  }

  function ClientEncode(value: Bytes): string {
    StripPad(Replace(Replace(Btoa(Binary(value)), '+', '-'), '/', '_'))
  }

  function ClientDecode(value: string): Option<Bytes> {
    var input := Replace(Replace(value, '-', '+'), '_', '/');
    Atob(PadEnd(input, (|input| + 3) / 4 * 4))
  }

  /** The client's loop over the bytes. */
  method EncodeBytes(value: Bytes) returns (text: string)
    ensures text == ClientEncode(value)
  {
    var binary := "";
    for i := 0 to |value|
      invariant |binary| == i && forall j :: 0 <= j < i ==> binary[j] == value[j] as char
    {
      binary := binary + [value[i] as char];
    }
    assert binary == Binary(value);
    assert IsBinary(binary);
    text := StripPad(Replace(Replace(Btoa(binary), '+', '-'), '/', '_'));
  }

  lemma {:induction false} StripPadded(s: string, n: nat)
    requires s == [] || s[|s| - 1] != '='
    ensures StripPad(s + Pad(n)) == s
  {
    if n == 0 {
      assert s + Pad(0) == s;
    } else {
      assert (s + Pad(n))[..|s| + n - 1] == s + Pad(n - 1);
      StripPadded(s, n - 1);
    }
  }

  lemma BtoaOf(value: Bytes)
    ensures IsBinary(Binary(value))
    ensures var raw := Encode(STD, value); Btoa(Binary(value)) == raw + Pad((4 - |raw| % 4) % 4)
  {
    assert CharCodes(Binary(value)) == value;
  }

  /** The character rewrite turns standard text into URL text and the other way round. */
  lemma Rewrites(value: Bytes)
    ensures Replace(Replace(Encode(STD, value), '+', '-'), '/', '_') == Encode(URL, value)
    ensures Replace(Replace(Encode(URL, value), '-', '+'), '_', '/') == Encode(STD, value)
  {
    var digits := Group(Spread(value, 8), 6);
    assert Pow2(6) == 64;
    forall i | 0 <= i < |digits|
      ensures Encode(STD, value)[i] == CharOf(STD, digits[i]) && Encode(URL, value)[i] == CharOf(URL, digits[i])
    {
    }
    assert Replace(Replace(Encode(STD, value), '+', '-'), '/', '_') == Encode(URL, value);
  }

  lemma ReplaceKeepsPad(s: string, n: nat, from: char, to: char)
    requires from != '='
    ensures Replace(s + Pad(n), from, to) == Replace(s, from, to) + Pad(n)
  {
  }

  function PadLength(value: Bytes): (n: nat) { (4 - |Encode(STD, value)| % 4) % 4 }

  lemma RewritesPadded(value: Bytes)
    ensures Replace(Replace(Btoa(Binary(value)), '+', '-'), '/', '_') == Encode(URL, value) + Pad(PadLength(value))
  {
    BtoaOf(value);
    Rewrites(value);
    ReplaceKeepsPad(Encode(STD, value), PadLength(value), '+', '-');
    ReplaceKeepsPad(Replace(Encode(STD, value), '+', '-'), PadLength(value), '/', '_');
  }

  lemma EncodedHasNoPad(value: Bytes)
    ensures var text := Encode(URL, value); text == [] || text[|text| - 1] != '='
  {
    EncodeUsesAlphabet(URL, value);
    var text := Encode(URL, value);
    assert text != [] ==> DigitOf(URL, text[|text| - 1]).Some?;
  }

  /** The client's text is exactly the server's raw base64url text. */
  lemma ClientAgreesWithServer(value: Bytes)
    ensures ClientEncode(value) == Encode(URL, value)
  {
    RewritesPadded(value);
    EncodedHasNoPad(value);
    StripPadded(Encode(URL, value), PadLength(value));
  }

  lemma PaddedHasNoSpace(t: string, length: nat)
    requires AllDigits(STD, t)
    ensures WithoutSpace(PadEnd(t, length)) == PadEnd(t, length)
  {
    var p := PadEnd(t, length);
    forall i | 0 <= i < |p|
      ensures p[i] !in " \t\r\n\U{000C}"
    {
      assert p[i] == '=' || DigitOf(STD, p[i]).Some?;
    }
  }

  /** Padding text whose length is not 1 modulo 4 and dropping the padding again restores the text. */
  lemma UnpadPadded(t: string)
    requires |t| % 4 != 1 && AllDigits(STD, t)
    ensures Unpad(PadEnd(t, (|t| + 3) / 4 * 4)) == t
  {
    assert t != [] ==> DigitOf(STD, t[|t| - 1]).Some?;
    assert '=' != STD.c62 && '=' != STD.c63;
  }

  /** For every byte sequence, decoding the encoded text gives it back, with the padding recomputed. */
  lemma ClientRoundTrip(value: Bytes)
    ensures ClientDecode(ClientEncode(value)) == Some(value)
    ensures |ClientEncode(value)| % 4 != 1
  {
    ClientAgreesWithServer(value);
    Rewrites(value);
    EncodeLength(STD, value);
    EncodeLength(URL, value);
    EncodeUsesAlphabet(STD, value);
    PaddedHasNoSpace(Encode(STD, value), (|Encode(STD, value)| + 3) / 4 * 4);
    UnpadPadded(Encode(STD, value));
    DecodeEncode(STD, value);
  }
}
