/** Argon2id password hashes in their encoded form: printing, parsing and the rehash decision. */
module Argon2id {
  import opened Models
  import opened Decimal
  import Base64

  datatype Argon2idParams = Argon2idParams(
    memory: nat, iterations: nat, parallelism: nat, saltLength: nat, keyLength: nat)

  /** The bounds of `NewArgon2idHasher`. */
  predicate InBounds(p: Argon2idParams) {
    && 8 * 1024 <= p.memory <= 1024 * 1024
    && 1 <= p.iterations <= 20
    && 1 <= p.parallelism <= 32
    && 16 <= p.saltLength <= 64
    && 16 <= p.keyLength <= 64
  }

  // ------------------------------------------------------------ text pieces

  function IndexOf(s: string, c: char): (i: nat)
    ensures i <= |s|
    ensures c !in s[..i]
    ensures i < |s| ==> s[i] == c
  {
    if s == [] || s[0] == c then 0
    else
      var i := 1 + IndexOf(s[1..], c);
      assert s[..i] == [s[0]] + s[1..][..i - 1];
      i
  }

  /** `strings.Split` on one character: one more part than separators. */
  function Split(s: string, c: char): (parts: seq<string>)
    ensures parts != []
    decreases |s|
  {
    var i := IndexOf(s, c);
    if i == |s| then [s] else [s[..i]] + Split(s[i + 1..], c)
  }

  function Join(parts: seq<string>, c: char): string
    requires parts != []
  {
    if |parts| == 1 then parts[0] else parts[0] + [c] + Join(parts[1..], c)
  }

  /** `strings.Cut`: the text before and after the first separator. */
  function Cut(s: string, c: char): Option<(string, string)> {
    var i := IndexOf(s, c);
    if i == |s| then None else Some((s[..i], s[i + 1..]))
  }

  lemma {:induction false} IndexIs(a: string, c: char, b: string)
    requires c !in a
    ensures IndexOf(a + [c] + b, c) == |a|
  {
    var s := a + [c] + b;
    if a == [] {
      assert s[0] == c;
    } else {
      IndexIs(a[1..], c, b);
      assert s[1..] == a[1..] + [c] + b && s[0] == a[0];
    }
  }

  lemma SplitFirst(a: string, c: char, rest: string)
    requires c !in a
    ensures Split(a + [c] + rest, c) == [a] + Split(rest, c)
  {
    IndexIs(a, c, rest);
    var s := a + [c] + rest;
    assert s[..|a|] == a && s[|a| + 1..] == rest;
  }

  /** Splitting joined parts gives them back, when no part holds the separator. */
  lemma {:induction false} SplitJoin(parts: seq<string>, c: char)
    requires parts != [] && forall i :: 0 <= i < |parts| ==> c !in parts[i]
    ensures Split(Join(parts, c), c) == parts
  {
    if |parts| == 1 {
      assert IndexOf(parts[0], c) == |parts[0]|;
    } else {
      hide Split;
      SplitJoin(parts[1..], c);
      SplitFirst(parts[0], c, Join(parts[1..], c));
      assert parts == [parts[0]] + parts[1..];
    }
  }

  lemma CutAt(a: string, c: char, b: string)
    requires c !in a
    ensures Cut(a + [c] + b, c) == Some((a, b))
  {
    IndexIs(a, c, b);
    var s := a + [c] + b;
    assert s[..|a|] == a && s[|a| + 1..] == b;
  }

  // ------------------------------------------------------------ printing

  function Setting(name: string, n: nat): string { name + ['='] + Print(n) }

  function Settings(p: Argon2idParams): string {
    Join([Setting("m", p.memory), Setting("t", p.iterations), Setting("p", p.parallelism)], ',')
  }

  /** The encoded hash: fields joined by dollar signs, with nothing before the first one. */
  function Encoded(p: Argon2idParams, salt: Bytes, key: Bytes): string {
    Join(["", "argon2id", "v=19", Settings(p), Base64.Encode(Base64.STD, salt), Base64.Encode(Base64.STD, key)], '$')
  }

  // ------------------------------------------------------------ parsing

  datatype Counts = Counts(memory: nat, iterations: nat, parallelism: nat)

  /** One `name=value` setting; a repeated name overwrites. */
  function Apply(counts: Counts, value: string): Option<Counts> {
    var cut := Cut(value, '=');
    if cut.None? then None
    else
      var parsed := ParseUint32(cut.value.1);
      if parsed.None? then None
      else if cut.value.0 == "m" then Some(counts.(memory := parsed.value))
      else if cut.value.0 == "t" then Some(counts.(iterations := parsed.value))
      else if cut.value.0 == "p" then Some(counts.(parallelism := parsed.value))
      else None
  }

  /** The first n settings applied in order. */
  function ApplyAll(values: seq<string>, n: nat): Option<Counts>
    requires n <= |values|
  {
    if n == 0 then Some(Counts(0, 0, 0))
    else
      var before := ApplyAll(values, n - 1);
      if before.None? then None else Apply(before.value, values[n - 1])
  }

  datatype Hash = Hash(params: Argon2idParams, salt: Bytes, key: Bytes)

  /** Parallelism is narrowed to eight bits before the bounds are checked. */
  function Parse(encoded: string): Option<Hash> {
    var parts := Split(encoded, '$');
    if |parts| != 6 || parts[1] != "argon2id" || parts[2] != "v=19" then None
    else
      var values := Split(parts[3], ',');
      var counts := ApplyAll(values, |values|);
      if counts.None? then None
      else
        var salt := Base64.StrictDecode(parts[4]);
        var key := Base64.StrictDecode(parts[5]);
        if salt.None? || key.None? then None
        else
          var params := Argon2idParams(counts.value.memory, counts.value.iterations,
                                       counts.value.parallelism % 256, |salt.value|, |key.value|);
          if InBounds(params) then Some(Hash(params, salt.value, key.value)) else None
  }

  lemma {:induction false} FailureStays(values: seq<string>, n: nat, m: nat)
    requires n <= m <= |values| && ApplyAll(values, n).None?
    ensures ApplyAll(values, m).None?
  {
    if n < m {
      FailureStays(values, n, m - 1);
    }
  }

  method ParseArgon2id(encoded: string) returns (r: Option<Hash>)
    ensures r == Parse(encoded)
  {
    var parts := Split(encoded, '$');
    if |parts| != 6 || parts[1] != "argon2id" || parts[2] != "v=19" {
      return None;
    }
    var memory: nat, iterations: nat, parallelism: nat := 0, 0, 0;
    var values := Split(parts[3], ',');
    for i := 0 to |values|
      invariant ApplyAll(values, i) == Some(Counts(memory, iterations, parallelism))
    {
      var cut := Cut(values[i], '=');
      var parsed := if cut.None? then None else ParseUint32(cut.value.1);
      if parsed.None? || cut.value.0 !in {"m", "t", "p"} {
        assert ApplyAll(values, i + 1).None?;
        FailureStays(values, i + 1, |values|);
        return None;
      }
      match cut.value.0 {
        case "m" => memory := parsed.value;
        case "t" => iterations := parsed.value;
        case _ => parallelism := parsed.value;
      }
    }
    var salt := Base64.StrictDecode(parts[4]);
    if salt.None? {
      return None;
    }
    var key := Base64.StrictDecode(parts[5]);
    if key.None? {
      return None;
    }
    var params := Argon2idParams(memory, iterations, parallelism % 256, |salt.value|, |key.value|);
    if !InBounds(params) {
      return None;
    }
    return Some(Hash(params, salt.value, key.value));
  }

  // ------------------------------------------------------------ round trip

  lemma PrintHas(n: nat, c: char)
    requires !IsDigit(c)
    ensures c !in Print(n)
  {
  }

  lemma SettingReads(counts: Counts, name: string, n: nat)
    requires name in {"m", "t", "p"} && n < TWO_TO_32
    ensures Apply(counts, Setting(name, n)) ==
            Some(if name == "m" then counts.(memory := n)
                 else if name == "t" then counts.(iterations := n)
                 else counts.(parallelism := n))
    ensures ',' !in Setting(name, n) && '$' !in Setting(name, n)
  {
    CutAt(name, '=', Print(n));
    ParsePrint(n);
    PrintHas(n, ',');
    PrintHas(n, '$');
  }

  /** The settings of in-range parameters are read back as they were printed. */
  lemma SettingsRead(p: Argon2idParams)
    requires InBounds(p)
    ensures var values := Split(Settings(p), ',');
            ApplyAll(values, |values|) == Some(Counts(p.memory, p.iterations, p.parallelism))
    ensures '$' !in Settings(p)
  {
    var m, t, q := Setting("m", p.memory), Setting("t", p.iterations), Setting("p", p.parallelism);
    SettingReads(Counts(0, 0, 0), "m", p.memory);
    SettingReads(Counts(p.memory, 0, 0), "t", p.iterations);
    SettingReads(Counts(p.memory, p.iterations, 0), "p", p.parallelism);
    var values := [m, t, q];
    SplitJoin(values, ',');
    assert ApplyAll(values, 1) == Some(Counts(p.memory, 0, 0));
    assert ApplyAll(values, 2) == Some(Counts(p.memory, p.iterations, 0));
    JoinThree(m, t, q, ',');
  }

  lemma JoinThree(a: string, b: string, c: string, separator: char)
    ensures Join([a, b, c], separator) == a + [separator] + (b + [separator] + c)
  {
    assert [a, b, c][1..] == [b, c];
    assert [b, c][1..] == [c] && Join([c], separator) == c;
    assert Join([b, c], separator) == b + [separator] + c;
  }

  lemma Base64HasNoDollar(b: Bytes)
    ensures '$' !in Base64.Encode(Base64.STD, b)
  {
    Base64.EncodeUsesAlphabet(Base64.STD, b);
    var t := Base64.Encode(Base64.STD, b);
    forall c | c in t
      ensures c != '$'
    {
      var i :| 0 <= i < |t| && t[i] == c;
      assert Base64.DigitOf(Base64.STD, t[i]).Some?;
    }
  }

  /** The salt and key have the lengths the parameters name. */
  predicate Sized(p: Argon2idParams, salt: Bytes, key: Bytes) {
    |salt| == p.saltLength && |key| == p.keyLength
  }

  /** For all in-range parameters, parsing a printed hash returns exactly what was printed. */
  lemma ParseEncoded(p: Argon2idParams, salt: Bytes, key: Bytes)
    requires InBounds(p) && Sized(p, salt, key)
    ensures Parse(Encoded(p, salt, key)) == Some(Hash(p, salt, key))
  {
    var parts := ["", "argon2id", "v=19", Settings(p),
                  Base64.Encode(Base64.STD, salt), Base64.Encode(Base64.STD, key)];
    hide Split, Join, ApplyAll, Settings, Base64.StrictDecode, Base64.Encode;
    SettingsRead(p);
    Base64HasNoDollar(salt);
    Base64HasNoDollar(key);
    SplitJoin(parts, '$');
    Base64.StrictDecodeEncode(salt);
    Base64.StrictDecodeEncode(key);
  }

  /** Every string the parser accepts carries parameters a hasher could be built with, and matching lengths. */
  lemma AcceptedIsInBounds(encoded: string)
    requires Parse(encoded).Some?
    ensures var h := Parse(encoded).value; InBounds(h.params) && Sized(h.params, h.salt, h.key)
  {
  }

  /** Only texts of six parts between dollar signs that name argon2id and version 19 are accepted. */
  lemma AcceptedNamesVersion(parts: seq<string>)
    requires parts != [] && forall i :: 0 <= i < |parts| ==> '$' !in parts[i]
    ensures Parse(Join(parts, '$')).Some? ==> |parts| == 6 && parts[1] == "argon2id" && parts[2] == "v=19"
  {
    SplitJoin(parts, '$');
    hide Join, Split;
  }

  // ------------------------------------------------------------ the hasher

  /** `argon2.IDKey`: password, salt, iterations, memory, parallelism and key length; left uninterpreted. */
  type KDF = (string, Bytes, nat, nat, nat, nat) -> Bytes

  /** Of the derivation, only the length of its result is assumed. */
  ghost predicate Sizes(kdf: KDF) {
    forall password, salt, t, m, p, n :: |kdf(password, salt, t, m, p, n)| == n
  }

  function DeriveKey(kdf: KDF, password: string, salt: Bytes, p: Argon2idParams): Bytes {
    kdf(password, salt, p.iterations, p.memory, p.parallelism, p.keyLength)
  }

  class Argon2idHasher {
    const params: Argon2idParams

    constructor (params: Argon2idParams)
      requires InBounds(params)
      ensures this.params == params
    {
      this.params := params;
    }

    method Hash(kdf: KDF, password: string, salt: Bytes) returns (encoded: string)
      ensures encoded == Encoded(params, salt, DeriveKey(kdf, password, salt, params))
    {
      var key := DeriveKey(kdf, password, salt, params);
      return Encoded(params, salt, key);
    }

    method Verify(kdf: KDF, encoded: string, password: string) returns (r: Result<bool>)
      ensures r == VerifyHash(kdf, encoded, password)
    {
      var parsed := ParseArgon2id(encoded);
      if parsed.None? {
        return Err(ErrInvalidCredential);
      }
      var actual := DeriveKey(kdf, password, parsed.value.salt, parsed.value.params);
      return Ok(actual == parsed.value.key);
    }

    method NeedsRehash(encoded: string) returns (r: bool)
      ensures r == Rehashes(params, encoded)
    {
      var parsed := ParseArgon2id(encoded);
      return parsed.None? || parsed.value.params != params;
    }
  }

  /** A hasher is made for exactly the parameters within bounds. */
  method NewArgon2idHasher(params: Argon2idParams) returns (hasher: Option<Argon2idHasher>)
    ensures hasher.Some? <==> InBounds(params)
    ensures hasher.Some? ==> fresh(hasher.value) && hasher.value.params == params
  {
    if params.memory < 8 * 1024 || params.memory > 1024 * 1024 || params.iterations == 0 || params.iterations > 20
       || params.parallelism == 0 || params.parallelism > 32 || params.saltLength < 16 || params.saltLength > 64
       || params.keyLength < 16 || params.keyLength > 64 {
      return None;
    }
    var made := new Argon2idHasher(params);
    return Some(made);
  }

  function VerifyHash(kdf: KDF, encoded: string, password: string): Result<bool> {
    match Parse(encoded)
    case None => Err(ErrInvalidCredential)
    case Some(h) => Ok(DeriveKey(kdf, password, h.salt, h.params) == h.key)
  }

  predicate Rehashes(params: Argon2idParams, encoded: string) {
    match Parse(encoded)
    case None => true
    case Some(h) => h.params != params
  }

  /** A fresh hash verifies its own password, and any other exactly when the derived keys collide. */
  lemma VerifyOfHash(kdf: KDF, p: Argon2idParams, salt: Bytes, password: string, typed: string)
    requires InBounds(p) && Sizes(kdf) && |salt| == p.saltLength
    ensures var encoded := Encoded(p, salt, DeriveKey(kdf, password, salt, p));
            && VerifyHash(kdf, encoded, password) == Ok(true)
            && (VerifyHash(kdf, encoded, typed) == Ok(true)
                <==> DeriveKey(kdf, typed, salt, p) == DeriveKey(kdf, password, salt, p))
  {
    ParseEncoded(p, salt, DeriveKey(kdf, password, salt, p));
  }

  /** A hasher asks for a rehash of a fresh hash exactly when it was made with other parameters. */
  lemma RehashIffParamsDiffer(kdf: KDF, mine: Argon2idParams, p: Argon2idParams, salt: Bytes, password: string)
    requires InBounds(p) && Sizes(kdf) && |salt| == p.saltLength
    ensures Rehashes(mine, Encoded(p, salt, DeriveKey(kdf, password, salt, p))) <==> mine != p
  {
    ParseEncoded(p, salt, DeriveKey(kdf, password, salt, p));
  }

  // ------------------------------------------------------------ hashing and verifying, spelled out

  /** `DefaultArgon2idParams`. */
  function DefaultArgon2idParams(): Argon2idParams {
    Argon2idParams(memory := 64 * 1024, iterations := 3, parallelism := 2, saltLength := 16, keyLength := 32)
  }

  lemma JoinSix(a: string, b: string, c: string, d: string, e: string, f: string, separator: char)
    ensures Join([a, b, c, d, e, f], separator)
            == a + [separator] + (b + [separator] + (c + [separator] + (d + [separator] + (e + [separator] + f))))
  {
    assert [a, b, c, d, e, f][1..] == [b, c, d, e, f] && [b, c, d, e, f][1..] == [c, d, e, f];
    assert [c, d, e, f][1..] == [d, e, f];
    JoinThree(d, e, f, separator);
    assert Join([c, d, e, f], separator) == c + [separator] + Join([d, e, f], separator);
    assert Join([b, c, d, e, f], separator) == b + [separator] + Join([c, d, e, f], separator);
  }

  function SettingsText(p: Argon2idParams): string {
    "m=" + (Print(p.memory) + (",t=" + (Print(p.iterations) + (",p=" + Print(p.parallelism)))))
  }

  /** The text of a hash: version 19, memory, passes and lanes in decimal, salt and key in unpadded base64. */
  lemma EncodedIs(p: Argon2idParams, salt: Bytes, key: Bytes)
    ensures Encoded(p, salt, key) ==
            "$argon2id$v=19$" + (SettingsText(p)
            + ("$" + (Base64.Encode(Base64.STD, salt) + ("$" + Base64.Encode(Base64.STD, key)))))
  {
    SettingsIs(p);
    var s, k := Base64.Encode(Base64.STD, salt), Base64.Encode(Base64.STD, key);
    JoinSix("", "argon2id", "v=19", Settings(p), s, k, '$');
    hide Join, Settings, SettingsText, Base64.Encode;
    Prefixed(SettingsText(p) + ['$'] + (s + ['$'] + k));
    assert SettingsText(p) + ['$'] + (s + ['$'] + k) == SettingsText(p) + ("$" + (s + ("$" + k)));
  }

  lemma SettingsIs(p: Argon2idParams)
    ensures Settings(p) == SettingsText(p)
  {
    hide Print, Join;
    var m, t, q := Print(p.memory), Print(p.iterations), Print(p.parallelism);
    JoinThree("m" + ['='] + m, "t" + ['='] + t, "p" + ['='] + q, ',');
    CommaSetting("t" + ['='] + t, "p", q);
    CommaSetting("m" + ['='] + m, "t", t + (",p=" + q));
    assert "t" + ['='] + t + (",p=" + q) == "t" + ['='] + (t + (",p=" + q));
    assert "m" + ['='] + m + (",t=" + (t + (",p=" + q))) == "m=" + (m + (",t=" + (t + (",p=" + q))));
  }

  lemma CommaSetting(before: string, name: string, value: string)
    ensures before + [','] + (name + ['='] + value) == before + ([','] + name + ['='] + value)
  {
  }

  lemma Prefixed(rest: string)
    ensures "" + ['$'] + ("argon2id" + ['$'] + ("v=19" + ['$'] + rest)) == "$argon2id$v=19$" + rest
  {
  }

  /** A hash of a password is verified by exactly the texts from which argon2 derives the same key again. */
  lemma HashVerifiesIff(kdf: KDF, p: Argon2idParams, salt: Bytes, password: string, typed: string)
    requires InBounds(p) && Sizes(kdf) && |salt| == p.saltLength
    ensures var key := kdf(password, salt, p.iterations, p.memory, p.parallelism, p.keyLength);
            && Encoded(p, salt, DeriveKey(kdf, password, salt, p)) == Encoded(p, salt, key)
            && (VerifyHash(kdf, Encoded(p, salt, key), typed) == Ok(true)
                <==> kdf(typed, salt, p.iterations, p.memory, p.parallelism, p.keyLength) == key)
  {
    VerifyOfHash(kdf, p, salt, password, typed);
  }

  /** The bounds a hasher's parameters must keep, which the default ones do. */
  lemma BoundsAre(p: Argon2idParams)
    ensures InBounds(p) <==>
            && 8_192 <= p.memory <= 1_048_576 && 1 <= p.iterations <= 20 && 1 <= p.parallelism <= 32
            && 16 <= p.saltLength <= 64 && 16 <= p.keyLength <= 64
    ensures InBounds(DefaultArgon2idParams())
  {
  }
}
