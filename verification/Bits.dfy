/**
 Regrouping of bits, the common core of base64 and base32 (sections 4 to 6 of RFC 4648): bytes are laid
 out most significant bit first, cut into k-bit groups, and the last group is filled with zero bits.
 */
module Bits {

  function Pow2(k: nat): (p: nat)
    ensures p > 0
  {
    if k == 0 then 1 else 2 * Pow2(k - 1)
  }

  /** The k low bits of v, most significant first. */
  function ToBits(v: nat, k: nat): (b: seq<bool>)
    ensures |b| == k
  {
    if k == 0 then [] else ToBits(v / 2, k - 1) + [v % 2 == 1]
  }

  function FromBits(b: seq<bool>): (v: nat)
    ensures v < Pow2(|b|)
  {
    if b == [] then 0 else 2 * FromBits(b[..|b| - 1]) + (if b[|b| - 1] then 1 else 0)
  }

  lemma {:induction false} FromToBits(v: nat, k: nat)
    requires v < Pow2(k)
    ensures FromBits(ToBits(v, k)) == v
  {
    if k > 0 {
      FromToBits(v / 2, k - 1);
      assert ToBits(v, k)[..k - 1] == ToBits(v / 2, k - 1);
    }
  }

  lemma {:induction false} ToFromBits(b: seq<bool>)
    ensures ToBits(FromBits(b), |b|) == b
  {
    if b != [] {
      ToFromBits(b[..|b| - 1]);
    }
  }

  predicate Fit(words: seq<nat>, k: nat) {
    forall i :: 0 <= i < |words| ==> words[i] < Pow2(k)
  }

  function Zeros(n: nat): (z: seq<bool>)
    ensures |z| == n
  {
    seq(n, _ => false)
  }

  /** The words' k-bit forms, one after the other. */
  function Spread(words: seq<nat>, k: nat): seq<bool> {
    if words == [] then [] else ToBits(words[0], k) + Spread(words[1..], k)
  }

  /** Complete k-bit groups as words; a last incomplete group is dropped. */
  function Gather(bits: seq<bool>, k: nat): (words: seq<nat>)
    requires k > 0
    ensures Fit(words, k)
  {
    if |bits| < k then [] else [FromBits(bits[..k])] + Gather(bits[k..], k)
  }

  /** Every k-bit group as a word; a last incomplete group is filled with zeros. */
  function Group(bits: seq<bool>, k: nat): (words: seq<nat>)
    requires k > 0
    ensures Fit(words, k)
  {
    if bits == [] then []
    else if |bits| < k then [FromBits(bits + Zeros(k - |bits|))]
    else [FromBits(bits[..k])] + Group(bits[k..], k)
  }

  /** How many zero bits `Group` appends. */
  function Fill(bits: seq<bool>, k: nat): (n: nat)
    requires k > 0
    ensures n < k
  {
    if bits == [] then 0 else if |bits| < k then k - |bits| else Fill(bits[k..], k)
  }

  lemma {:induction false} SpreadGroup(bits: seq<bool>, k: nat)
    requires k > 0
    ensures Spread(Group(bits, k), k) == bits + Zeros(Fill(bits, k))
  {
    if bits == [] {
    } else if |bits| < k {
      ToFromBits(bits + Zeros(k - |bits|));
      assert Group(bits, k)[1..] == [];
    } else {
      SpreadGroup(bits[k..], k);
      ToFromBits(bits[..k]);
      assert Group(bits, k)[1..] == Group(bits[k..], k);
      assert bits == bits[..k] + bits[k..];
    }
  }

  lemma {:induction false} GatherSpread(words: seq<nat>, k: nat, tail: seq<bool>)
    requires k > 0 && Fit(words, k) && |tail| < k
    ensures Gather(Spread(words, k) + tail, k) == words
  {
    if words == [] {
      assert Spread(words, k) + tail == tail;
    } else {
      var bits := Spread(words, k) + tail;
      FromToBits(words[0], k);
      GatherSpread(words[1..], k, tail);
      assert bits == ToBits(words[0], k) + (Spread(words[1..], k) + tail);
      assert bits[..k] == ToBits(words[0], k);
      assert bits[k..] == Spread(words[1..], k) + tail;
      assert words == [words[0]] + words[1..];
    }
  }

  /** Regrouping from j bits to k bits and back loses nothing, as long as the fill is shorter than a word. */
  lemma Regroup(words: seq<nat>, j: nat, k: nat)
    requires 0 < k <= j && Fit(words, j)
    ensures Gather(Spread(Group(Spread(words, j), k), k), j) == words
  {
    SpreadGroup(Spread(words, j), k);
    GatherSpread(words, j, Zeros(Fill(Spread(words, j), k)));
  }

  lemma {:induction false} SpreadLength(words: seq<nat>, k: nat)
    ensures |Spread(words, k)| == |words| * k
  {
    if words != [] {
      SpreadLength(words[1..], k);
    }
  }

  lemma {:induction false} GroupLength(bits: seq<bool>, k: nat)
    requires k > 0
    ensures |Group(bits, k)| * k == |bits| + Fill(bits, k)
  {
    SpreadGroup(bits, k);
    SpreadLength(Group(bits, k), k);
  }
}
