/** Time-based one-time passwords: section 4 of RFC 6238 over section 5.3 of RFC 4226. */
module Totp {
  import opened Models
  import opened Decimal
  import Base32
  import CodeText

  type Digest = d: Bytes | |d| == 20 witness seq(20, _ => 0)

  /** HMAC-SHA-1 of a message under a key, left uninterpreted. */
  type Mac = (Bytes, Bytes) -> Digest

  datatype TOTPOptions = TOTPOptions(digits: nat, period: int)

  /** What `normalizeOptions` lets through. */
  predicate ValidOptions(o: TOTPOptions) {
    o.digits in {6, 8} && 15 * SECOND <= o.period <= 60 * SECOND
  }

  const UNIX_EPOCH: int := 62_135_596_800 * SECOND
  const TWO_TO_63: int := 0x8000_0000_0000_0000
  const TWO_TO_64: int := 0x1_0000_0000_0000_0000

  /** `Time.Unix`: whole seconds since 1970, rounded down. */
  function Unix(t: Time): int { (t - UNIX_EPOCH) / SECOND }

  /** Go's integer division truncates toward zero. */
  function Quotient(a: int, b: int): int
    requires b > 0
  {
    if a >= 0 then a / b else -(-a / b)
  }

  function BigEndian(v: nat, n: nat): (b: Bytes)
    ensures |b| == n
  {
    if n == 0 then [] else BigEndian(v / 256, n - 1) + [v % 256]
  }

  function FromBigEndian(b: Bytes): nat {
    if b == [] then 0 else 256 * FromBigEndian(b[..|b| - 1]) + b[|b| - 1]
  }

  // ------------------------------------------------------------ reference: RFC 4226 section 5.3

  /** Four bytes at the offset named by the low nibble of the last byte, top bit cleared. */
  function Truncate(digest: Digest): (v: nat)
    ensures v < TWO_TO_63
  {
    var offset := digest[19] % 16;
    FromBigEndian(digest[offset..offset + 4]) % 0x8000_0000
  }

  function HOTP(mac: Mac, key: Bytes, counter: nat, digits: nat): (code: string)
    ensures |code| == digits && AllDigits(code)
  {
    LowDigits(Truncate(mac(key, BigEndian(counter, 8))) % Pow10(digits), digits)
  }

  // ------------------------------------------------------------ the code

  /** What `generateTOTP` computes; the multiplication of `modulus` wraps like a uint32. */
  function Modulus(digits: nat): (m: nat)
    ensures m < TWO_TO_32
  {
    if digits == 0 then 1 else Modulus(digits - 1) * 10 % TWO_TO_32
  }

  function Code(mac: Mac, key: Bytes, counter: nat, digits: nat): string
    requires Modulus(digits) != 0
  {
    PrintPadded(digits, Truncate(mac(key, BigEndian(counter, 8))) % Modulus(digits))
  }

  function CounterAt(now: Time, seconds: int): (c: nat)
    requires seconds > 0
  {
    Quotient(Unix(now), seconds) % TWO_TO_64
  }

  function Generate(mac: Mac, secret: string, now: Time, o: TOTPOptions): Result<string>
    requires Modulus(o.digits) != 0
  {
    var decoded := Base32.Decode(CodeText.ToUpper(secret));
    if decoded.None? || |decoded.value| < 16 then Err(ErrInvalidCredential)
    else
      var seconds := Quotient(o.period, SECOND);
      if seconds <= 0 then Err(ErrInvalidCredential)
      else Ok(Code(mac, decoded.value, CounterAt(now, seconds), o.digits))
  }

  method GenerateTOTP(mac: Mac, secret: string, now: Time, o: TOTPOptions) returns (r: Result<string>)
    requires Modulus(o.digits) != 0
    ensures r == Generate(mac, secret, now, o)
  {
    var decoded := Base32.Decode(CodeText.ToUpper(secret));
    if decoded.None? || |decoded.value| < 16 {
      return Err(ErrInvalidCredential);
    }
    var period := Quotient(o.period, SECOND);
    if period <= 0 {
      return Err(ErrInvalidCredential);
    }
    var counter := Quotient(Unix(now), period) % TWO_TO_64;
    var message := BigEndian(counter, 8);
    var digest := mac(decoded.value, message);
    var offset := digest[|digest| - 1] % 16;
    var value := FromBigEndian(digest[offset..offset + 4]) % 0x8000_0000;
    var modulus: nat := 1;
    for i := 0 to o.digits
      invariant modulus == Modulus(i)
    {
      modulus := modulus * 10 % TWO_TO_32;
    }
    return Ok(PrintPadded(o.digits, value % modulus));
  }

  predicate AcceptsAt(mac: Mac, secret: string, candidate: string, at: Time, o: TOTPOptions)
    requires Modulus(o.digits) != 0
  {
    Generate(mac, secret, at, o) == Ok(candidate)
  }

  /** The checks made before any code is generated. */
  predicate Precheck(candidate: string, digits: nat) {
    |candidate| == digits && ParseUint32(candidate).Some?
  }

  predicate InWindow(mac: Mac, secret: string, candidate: string, now: Time, o: TOTPOptions)
    requires Modulus(o.digits) != 0
  {
    || AcceptsAt(mac, secret, candidate, now - o.period, o)
    || AcceptsAt(mac, secret, candidate, now, o)
    || AcceptsAt(mac, secret, candidate, now + o.period, o)
  }

  predicate Verify(mac: Mac, secret: string, candidate: string, now: Time, o: TOTPOptions)
    requires Modulus(o.digits) != 0
  {
    Precheck(candidate, o.digits) && InWindow(mac, secret, candidate, now, o)
  }

  method VerifyTOTP(mac: Mac, secret: string, candidate: string, now: Time, o: TOTPOptions) returns (ok: bool)
    requires Modulus(o.digits) != 0
    ensures ok == Verify(mac, secret, candidate, now, o)
  {
    hide Generate;
    if |candidate| != o.digits {
      return false;
    }
    if ParseUint32(candidate).None? {
      return false;
    }
    for window := -1 to 2
      invariant window >= 0 ==> !AcceptsAt(mac, secret, candidate, now - o.period, o)
      invariant window >= 1 ==> !AcceptsAt(mac, secret, candidate, now, o)
      invariant window >= 2 ==> !AcceptsAt(mac, secret, candidate, now + o.period, o)
    {
      var at := now + window * o.period;
      assert at == if window == -1 then now - o.period else if window == 0 then now else now + o.period;
      var expected := GenerateTOTP(mac, secret, at, o);
      if expected.Ok? && expected.value == candidate {
        return true;
      }
    }
    return false;
  }

  // ------------------------------------------------------------ exactness

  /** Up to nine digits the product stays below 2^32, so the modulus is the power of ten. */
  lemma {:induction false} ModulusIsPowerOfTen(digits: nat)
    requires digits <= 9
    ensures Modulus(digits) == Pow10(digits)
  {
    if digits > 0 {
      ModulusIsPowerOfTen(digits - 1);
      Pow10Grows(digits, 9);
      assert Pow10(9) == 1_000_000_000;
    }
  }

  lemma {:induction false} Pow10Grows(d: nat, e: nat)
    requires d <= e
    ensures Pow10(d) <= Pow10(e)
  {
    if d < e {
      Pow10Grows(d, e - 1);
    }
  }

  /** Printed codes are the reference's, digit for digit. */
  lemma CodeIsHOTP(mac: Mac, key: Bytes, counter: nat, digits: nat)
    requires 1 <= digits <= 9
    ensures Modulus(digits) != 0 && Code(mac, key, counter, digits) == HOTP(mac, key, counter, digits)
  {
    ModulusIsPowerOfTen(digits);
    PaddedIsLowDigits(digits, Truncate(mac(key, BigEndian(counter, 8))) % Pow10(digits));
  }

  /** The pre-checks on length and digits never reject a genuine code. */
  lemma GenuineCodeParses(mac: Mac, key: Bytes, counter: nat, digits: nat)
    requires digits in {6, 8}
    ensures ParseUint32(HOTP(mac, key, counter, digits)).Some?
  {
    var v := Truncate(mac(key, BigEndian(counter, 8))) % Pow10(digits);
    ValueOfLowDigits(v, digits);
    ModulusIsPowerOfTen(digits);
  }

  lemma TimesKeepsOrder(a: int, b: int, s: int)
    requires a <= b && s > 0
    ensures a * s <= b * s
  {
  }

  lemma DivIs(x: int, s: int, q: int)
    requires s > 0 && q * s <= x < q * s + s
    ensures x / s == q
  {
    var p := x / s;
    if p < q {
      TimesKeepsOrder(p + 1, q, s);
    } else if q < p {
      TimesKeepsOrder(q + 1, p, s);
    }
  }

  lemma DivShift(u: int, s: int, k: int)
    requires s > 0
    ensures (u + k * s) / s == u / s + k
  {
    var q := u / s;
    assert (q + k) * s == q * s + k * s;
    DivIs(u + k * s, s, q + k);
  }

  /** Moving the clock by whole periods moves the counter by one. */
  lemma CounterMoves(now: Time, seconds: int, t: nat, window: int)
    requires seconds > 0 && -1 <= window <= 1 && t == Unix(now) / seconds
    requires seconds <= Unix(now) < TWO_TO_63 - seconds
    ensures t + window >= 0
    ensures CounterAt(now + window * (seconds * SECOND), seconds) == t + window
  {
    var u, moved := Unix(now), window * seconds;
    assert -seconds <= moved <= seconds;
    assert window * (seconds * SECOND) == moved * SECOND;
    assert Unix(now + moved * SECOND) == u + moved;
    DivShift(u, seconds, window);
    DivAtMost(u + moved, seconds);
  }

  lemma DivAtMost(x: int, s: int)
    requires s > 0 && x >= 0
    ensures 0 <= x / s <= x
  {
    var p := x / s;
    assert p * s <= x < p * s + s;
    assert p < 0 ==> (p + 1) * s <= 0;
    assert p >= 0 ==> p * 1 <= p * s;
  }

  /** The key a secret stands for, when it is long enough to be used. */
  function KeyOf(secret: string): Option<Bytes> {
    var decoded := Base32.Decode(CodeText.ToUpper(secret));
    if decoded.Some? && |decoded.value| >= 16 then decoded else None
  }

  lemma GenerateIsCode(mac: Mac, secret: string, at: Time, o: TOTPOptions, seconds: int)
    requires o.period == seconds * SECOND && seconds > 0 && KeyOf(secret).Some? && Modulus(o.digits) != 0
    ensures Generate(mac, secret, at, o) == Ok(Code(mac, KeyOf(secret).value, CounterAt(at, seconds), o.digits))
  {
    assert Quotient(o.period, SECOND) == seconds;
  }

  lemma AcceptsIsHOTP(
    mac: Mac, secret: string, key: Bytes, candidate: string, at: Time, o: TOTPOptions, seconds: int, counter: nat)
    requires o.digits in {6, 8} && o.period == seconds * SECOND && seconds > 0
    requires KeyOf(secret) == Some(key) && CounterAt(at, seconds) == counter
    ensures Modulus(o.digits) != 0
    ensures AcceptsAt(mac, secret, candidate, at, o) <==> candidate == HOTP(mac, key, counter, o.digits)
  {
    CodeIsHOTP(mac, key, counter, o.digits);
    GenerateIsCode(mac, secret, at, o, seconds);
  }

  /** The candidate is the RFC's value at counter t - 1, t or t + 1. */
  predicate IsNearby(mac: Mac, key: Bytes, t: nat, digits: nat, candidate: string)
    requires t >= 1
  {
    || candidate == HOTP(mac, key, t - 1, digits)
    || candidate == HOTP(mac, key, t, digits)
    || candidate == HOTP(mac, key, t + 1, digits)
  }

  lemma CountersAround(now: Time, period: int, seconds: int, t: nat)
    requires seconds > 0 && period == seconds * SECOND && t == Unix(now) / seconds
    requires seconds <= Unix(now) < TWO_TO_63 - seconds
    ensures t >= 1
    ensures CounterAt(now - period, seconds) == t - 1
    ensures CounterAt(now, seconds) == t
    ensures CounterAt(now + period, seconds) == t + 1
  {
    CounterMoves(now, seconds, t, -1);
    CounterMoves(now, seconds, t, 0);
    CounterMoves(now, seconds, t, 1);
  }

  lemma AcceptedIsNearby(
    mac: Mac, secret: string, key: Bytes, candidate: string, now: Time, o: TOTPOptions, seconds: int, t: nat)
    requires o.digits in {6, 8} && o.period == seconds * SECOND && seconds > 0 && t >= 1
    requires KeyOf(secret) == Some(key)
    requires CounterAt(now - o.period, seconds) == t - 1
    requires CounterAt(now, seconds) == t
    requires CounterAt(now + o.period, seconds) == t + 1
    ensures Modulus(o.digits) != 0
    ensures IsNearby(mac, key, t, o.digits, candidate)
            <==> InWindow(mac, secret, candidate, now, o)
  {
    hide Generate, HOTP;
    AcceptsIsHOTP(mac, secret, key, candidate, now - o.period, o, seconds, t - 1);
    AcceptsIsHOTP(mac, secret, key, candidate, now, o, seconds, t);
    AcceptsIsHOTP(mac, secret, key, candidate, now + o.period, o, seconds, t + 1);
  }

  lemma NearbyPassesPrechecks(mac: Mac, key: Bytes, t: nat, digits: nat, candidate: string)
    requires t >= 1 && digits in {6, 8} && IsNearby(mac, key, t, digits, candidate)
    ensures Precheck(candidate, digits)
  {
    GenuineCodeParses(mac, key, t - 1, digits);
    GenuineCodeParses(mac, key, t, digits);
    GenuineCodeParses(mac, key, t + 1, digits);
  }

  /**
   For whole-second periods, from one period after 1970 on, a code is accepted exactly when it is the RFC's value
   at the previous, the current or the next counter.
   */
  lemma VerifyIsExact(
    mac: Mac, secret: string, key: Bytes, candidate: string, now: Time, o: TOTPOptions, seconds: int, t: nat)
    requires ValidOptions(o) && o.period == seconds * SECOND
    requires KeyOf(secret) == Some(key) && seconds <= Unix(now) < TWO_TO_63 - seconds && t == Unix(now) / seconds
    ensures Modulus(o.digits) != 0 && t >= 1
    ensures Verify(mac, secret, candidate, now, o) <==> IsNearby(mac, key, t, o.digits, candidate)
  {
    CountersAround(now, o.period, seconds, t);
    AcceptedIsNearby(mac, secret, key, candidate, now, o, seconds, t);
    if IsNearby(mac, key, t, o.digits, candidate) {
      NearbyPassesPrechecks(mac, key, t, o.digits, candidate);
    }
  }

  /** Counters become messages injectively: the eight bytes determine the counter. */
  lemma {:induction false} FromToBigEndian(v: nat, n: nat)
    ensures v < Pow256(n) ==> FromBigEndian(BigEndian(v, n)) == v
  {
    if n > 0 {
      FromToBigEndian(v / 256, n - 1);
      assert BigEndian(v, n)[..n - 1] == BigEndian(v / 256, n - 1);
    }
  }

  function Pow256(n: nat): (p: nat)
    ensures p > 0
  {
    if n == 0 then 1 else 256 * Pow256(n - 1)
  }

  // ------------------------------------------------------------ against the published numbers

  /** The truncation example of section 5.4 of RFC 4226. */
  lemma Rfc4226Example()
    ensures var digest := [0x1f, 0x86, 0x98, 0x69, 0x0e, 0x02, 0xca, 0x16, 0x61, 0x85,
                           0x50, 0xef, 0x7f, 0x19, 0xda, 0x8e, 0x94, 0x5b, 0x55, 0x5a];
            Truncate(digest) == 0x50ef7f19 && LowDigits(Truncate(digest) % Pow10(6), 6) == "872921"
  {
    ExampleBytes();
    ExampleDigits();
    hide FromBigEndian, LowDigits, Pow10;
    var digest: Bytes := [0x1f, 0x86, 0x98, 0x69, 0x0e, 0x02, 0xca, 0x16, 0x61, 0x85,
                          0x50, 0xef, 0x7f, 0x19, 0xda, 0x8e, 0x94, 0x5b, 0x55, 0x5a];
    assert digest[10..14] == [0x50, 0xef, 0x7f, 0x19];
  }

  lemma ExampleBytes()
    ensures FromBigEndian([0x50, 0xef, 0x7f, 0x19]) == 0x50ef7f19
  {
    var b: Bytes := [0x50, 0xef, 0x7f, 0x19];
    assert b[..3] == [0x50, 0xef, 0x7f] && b[..3][..2] == [0x50, 0xef] && b[..3][..2][..1] == [0x50];
    assert FromBigEndian([0x50]) == 0x50 && FromBigEndian([0x50, 0xef]) == 0x50ef;
    assert FromBigEndian([0x50, 0xef, 0x7f]) == 0x50ef7f;
  }

  lemma ExampleDigits()
    ensures Pow10(6) == 1_000_000 && LowDigits(872_921, 6) == "872921"
  {
    assert Pow10(3) == 1_000;
    assert LowDigits(8, 1) == "8" && LowDigits(87, 2) == "87" && LowDigits(872, 3) == "872";
    assert LowDigits(8729, 4) == "8729" && LowDigits(87292, 5) == "87292";
  }

  /** 1970 begins after 1969 years of the Gregorian calendar. */
  lemma EpochIs()
    ensures UNIX_EPOCH == (1969 * 365 + 1969 / 4 - 1969 / 100 + 1969 / 400) * 86_400 * SECOND
    ensures Unix(UNIX_EPOCH) == 0
  {
  }
}
