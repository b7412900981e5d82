/** Text handling around codes: cleaning typed codes, displaying recovery codes, and key labels. */
module CodeText {
  import opened Models
  import Base32

  function UpperChar(c: char): char {
    if 'a' <= c <= 'z' then (c as int - 'a' as int + 'A' as int) as char else c
  }

  /** `strings.ToUpper` on ASCII letters; every other character is kept. */
  function ToUpper(s: string): (r: string)
    ensures |r| == |s|
  {
    if s == [] then [] else [UpperChar(s[0])] + ToUpper(s[1..])
  }

  /** The replacer that deletes hyphens and spaces. */
  function WithoutSeparators(s: string): string {
    if s == [] then [] else Kept(s[0]) + WithoutSeparators(s[1..])
  }

  function Kept(c: char): string {
    if c == '-' || c == ' ' then [] else [c]
  }

  /** What `codeProof` hashes. */
  function Cleaned(code: string): string { ToUpper(WithoutSeparators(code)) }

  /** HMAC-SHA-256, left uninterpreted. */
  type Hmac = (Bytes, string) -> Bytes

  function DeriveKey(hmac: Hmac, secret: Bytes, tag: string): Bytes {
    hmac(secret, "dreego-plugin-auth:" + tag)
  }

  function CodeProof(hmac: Hmac, secret: Bytes, tag: string, code: string): Bytes {
    hmac(DeriveKey(hmac, secret, tag), Cleaned(code))
  }

  // ------------------------------------------------------------ recovery codes

  /** How a recovery code is shown: groups of four joined by hyphens. */
  function Display(raw: string): string
    requires |raw| >= 12
  {
    raw[..4] + "-" + raw[4..8] + "-" + raw[8..12] + "-" + raw[12..]
  }

  lemma {:induction false} WithoutSeparatorsConcat(a: string, b: string)
    ensures WithoutSeparators(a + b) == WithoutSeparators(a) + WithoutSeparators(b)
  {
    if a == [] {
      assert a + b == b;
    } else {
      var s := a + b;
      assert s[0] == a[0] && s[1..] == a[1..] + b;
      WithoutSeparatorsConcat(a[1..], b);
      assert WithoutSeparators(s) == Kept(a[0]) + (WithoutSeparators(a[1..]) + WithoutSeparators(b));
    }
  }

  /** Inserting a hyphen or a space anywhere in a typed code leaves its proof unchanged. */
  lemma CleanedIgnoresSeparators(a: string, c: char, b: string)
    requires c == '-' || c == ' '
    ensures Cleaned(a + [c] + b) == Cleaned(a + b)
  {
    WithoutSeparatorsConcat(a + [c], b);
    WithoutSeparatorsConcat(a, [c]);
    WithoutSeparatorsConcat(a, b);
    assert WithoutSeparators([c]) == WithoutSeparators([c][1..]) == [];
    assert WithoutSeparators(a + [c]) == WithoutSeparators(a);
  }

  ghost predicate SameUpToCase(a: string, b: string) {
    |a| == |b| && forall i :: 0 <= i < |a| ==> UpperChar(a[i]) == UpperChar(b[i])
  }

  /** So does changing the case of ASCII letters. */
  lemma {:induction false} CleanedIgnoresCase(a: string, b: string)
    requires SameUpToCase(a, b)
    ensures Cleaned(a) == Cleaned(b)
  {
    if a != [] {
      CleanedIgnoresCase(a[1..], b[1..]);
      assert UpperChar(a[0]) == UpperChar(b[0]);
      CleanedFirst(a);
      CleanedFirst(b);
    }
  }

  lemma CleanedFirst(s: string)
    requires s != []
    ensures Cleaned(s) == (if s[0] == '-' || s[0] == ' ' then [] else [UpperChar(s[0])]) + Cleaned(s[1..])
  {
    var rest := WithoutSeparators(s[1..]);
    if s[0] == '-' || s[0] == ' ' {
      assert WithoutSeparators(s) == rest;
    } else {
      assert WithoutSeparators(s)[1..] == rest;
    }
  }

  /** Base32 text has no separators and no lower-case letters. */
  lemma {:induction false} Base32IsPlain(text: string)
    requires Base32.AllDigits(text)
    ensures WithoutSeparators(text) == text && ToUpper(text) == text
  {
    if text != [] {
      assert Base32.DigitOf(text[0]).Some?;
      Base32IsPlain(text[1..]);
    }
  }

  /** A group shown before a hyphen is cleaned to itself. */
  lemma GroupCleaned(a: string, rest: string)
    requires WithoutSeparators(a) == a
    ensures WithoutSeparators(a + "-" + rest) == a + WithoutSeparators(rest)
  {
    var dash: string := "-";
    WithoutSeparatorsConcat(a + dash, rest);
    WithoutSeparatorsConcat(a, dash);
    assert WithoutSeparators(dash) == WithoutSeparators(dash[1..]) == [];
    assert a + [] == a;
  }

  /** Cleaning the displayed form of a 10-byte code gives back its 16 base32 characters. */
  lemma CleanedDisplay(bytes: Bytes)
    requires |bytes| == 10
    ensures var raw := Base32.Encode(bytes);
            && |raw| == 16
            && Cleaned(Display(ToUpper(raw))) == raw
  {
    var raw := Base32.Encode(bytes);
    Base32.EncodeLength(bytes);
    Base32.EncodeUsesAlphabet(bytes);
    Base32IsPlain(raw);
    DisplayCleaned(raw);
  }

  lemma DisplayCleaned(raw: string)
    requires |raw| >= 12 && Base32.AllDigits(raw)
    ensures Cleaned(Display(raw)) == raw
  {
    hide WithoutSeparators, ToUpper;
    Base32IsPlain(raw);
    SeparatorsOfDisplay(raw[..4], raw[4..8], raw[8..12], raw[12..]);
    assert raw[..4] + (raw[4..8] + (raw[8..12] + raw[12..])) == raw;
    assert Display(raw) == raw[..4] + "-" + (raw[4..8] + "-" + (raw[8..12] + "-" + raw[12..]));
  }

  lemma SeparatorsOfDisplay(a: string, b: string, c: string, d: string)
    requires Base32.AllDigits(a) && Base32.AllDigits(b) && Base32.AllDigits(c) && Base32.AllDigits(d)
    ensures WithoutSeparators(a + "-" + (b + "-" + (c + "-" + d))) == a + (b + (c + d))
  {
    Base32IsPlain(a);
    Base32IsPlain(b);
    Base32IsPlain(c);
    Base32IsPlain(d);
    GroupCleaned(a, b + "-" + (c + "-" + d));
    GroupCleaned(b, c + "-" + d);
    GroupCleaned(c, d);
  }

  // ------------------------------------------------------------ one-time codes

  lemma {:induction false} DigitsArePlain(code: string)
    requires forall i :: 0 <= i < |code| ==> '0' <= code[i] <= '9'
    ensures Cleaned(code) == code
  {
    if code != [] {
      DigitsArePlain(code[1..]);
      CleanedFirst(code);
    }
  }

  /** `randomNumericCode`, given the drawn digits; cleaning a typed code changes nothing in it. */
  method RandomNumericCode(drawn: seq<nat>) returns (code: string)
    requires forall i :: 0 <= i < |drawn| ==> drawn[i] < 10
    ensures |code| == |drawn| && forall i :: 0 <= i < |drawn| ==> code[i] == ('0' as int + drawn[i]) as char
    ensures Cleaned(code) == code
  {
    var result := new char[|drawn|](_ => '0');
    for i := 0 to |drawn|
      invariant forall j :: 0 <= j < i ==> result[j] == ('0' as int + drawn[j]) as char
    {
      result[i] := ('0' as int + drawn[i]) as char;
    }
    code := result[..];
    DigitsArePlain(code);
  }

  // ------------------------------------------------------------ key labels

  datatype Label =
    | TOTPLabel(userID: string)
    | RecoveryLabel(userID: string)
    | CodeLabel(id: string, purpose: string)

  function LabelText(l: Label): string {
    match l
    case TOTPLabel(userID) => "totp:" + userID
    case RecoveryLabel(userID) => "recovery:" + userID
    case CodeLabel(id, purpose) => "one-time:" + id + ":" + purpose
  }

  predicate ValidCodePurpose(purpose: string) {
    purpose == PURPOSE_LOGIN_CODE || purpose == PURPOSE_VERIFY_ACCOUNT || purpose == PURPOSE_PASSWORD_RESET
  }

  predicate ValidLabel(l: Label) {
    l.CodeLabel? ==> ValidCodePurpose(l.purpose)
  }

  lemma LaterColon(a: string, p: string, b: string, q: string)
    requires a + ":" + p == b + ":" + q && |a| < |b|
    ensures ':' in p
  {
    assert (a + ":" + p)[|b|] == p[|b| - |a| - 1];
    assert (b + ":" + q)[|b|] == ':';
  }

  /** The last colon splits id and purpose, because no valid purpose holds a colon. */
  lemma LastColonSplits(a: string, p: string, b: string, q: string)
    requires a + ":" + p == b + ":" + q && ':' !in p && ':' !in q
    ensures a == b && p == q
  {
    if |a| < |b| {
      LaterColon(a, p, b, q);
    } else if |b| < |a| {
      LaterColon(b, q, a, p);
    } else {
      assert (a + ":" + p)[..|a|] == a && (b + ":" + q)[..|b|] == b;
      assert (a + ":" + p)[|a| + 1..] == p && (b + ":" + q)[|b| + 1..] == q;
    }
  }

  lemma SameKind(l: Label, m: Label)
    requires LabelText(l) == LabelText(m)
    ensures l.TOTPLabel? == m.TOTPLabel? && l.RecoveryLabel? == m.RecoveryLabel?
  {
    assert LabelText(l)[0] == (if l.TOTPLabel? then 't' else if l.RecoveryLabel? then 'r' else 'o');
    assert LabelText(m)[0] == (if m.TOTPLabel? then 't' else if m.RecoveryLabel? then 'r' else 'o');
  }

  /** Labels for different purposes, users or codes never coincide, whatever the ids contain. */
  lemma LabelsAreDistinct(l: Label, m: Label)
    requires ValidLabel(l) && ValidLabel(m) && LabelText(l) == LabelText(m)
    ensures l == m
  {
    SameKind(l, m);
    var s, t := LabelText(l), LabelText(m);
    match l
    case TOTPLabel(u) => assert s[5..] == u && t[5..] == m.userID;
    case RecoveryLabel(u) => assert s[9..] == u && t[9..] == m.userID;
    case CodeLabel(id, purpose) => CodeLabelsAreDistinct(id, purpose, m.id, m.purpose);
  }

  lemma PurposeHasNoColon(purpose: string)
    requires ValidCodePurpose(purpose)
    ensures ':' !in purpose
  {
  }

  lemma AfterPrefix(prefix: string, s: string)
    ensures (prefix + s)[|prefix|..] == s
  {
  }

  lemma CodeLabelsAreDistinct(a: string, p: string, b: string, q: string)
    requires ValidCodePurpose(p) && ValidCodePurpose(q)
    requires LabelText(CodeLabel(a, p)) == LabelText(CodeLabel(b, q))
    ensures a == b && p == q
  {
    hide ValidCodePurpose;
    PurposeHasNoColon(p);
    PurposeHasNoColon(q);
    var prefix: string := "one-time:";
    assert LabelText(CodeLabel(a, p)) == prefix + (a + ":" + p);
    assert LabelText(CodeLabel(b, q)) == prefix + (b + ":" + q);
    hide LabelText;
    AfterPrefix(prefix, a + ":" + p);
    AfterPrefix(prefix, b + ":" + q);
    LastColonSplits(a, p, b, q);
  }

  // ------------------------------------------------------------ proofs

  /** Different keys or texts never give the same tag. */
  ghost predicate CollisionFree(hmac: Hmac) {
    forall key, text, otherKey, otherText ::
      hmac(key, text) == hmac(otherKey, otherText) ==> key == otherKey && text == otherText
  }

  /** Under such a function a proof stands for its label and the cleaned code, and nothing else. */
  lemma ProofsAgreeIff(hmac: Hmac, secret: Bytes, l: Label, code: string, m: Label, other: string)
    requires CollisionFree(hmac) && ValidLabel(l) && ValidLabel(m)
    ensures CodeProof(hmac, secret, LabelText(l), code) == CodeProof(hmac, secret, LabelText(m), other)
            <==> l == m && Cleaned(code) == Cleaned(other)
  {
    if CodeProof(hmac, secret, LabelText(l), code) == CodeProof(hmac, secret, LabelText(m), other) {
      var prefix: string := "dreego-plugin-auth:";
      assert prefix + LabelText(l) == prefix + LabelText(m);
      AfterPrefix(prefix, LabelText(l));
      AfterPrefix(prefix, LabelText(m));
      LabelsAreDistinct(l, m);
    }
    hide Cleaned, LabelText, ValidLabel;
  }
}
