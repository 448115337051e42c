/** The length-prefixed personal-message preimage (frontend/frost-wasm/src/lib.rs,
    `uleb128` and `personal_message_digest`); the hash itself is not modelled. */
module Uleb128 {
  import opened Wrappers
  import opened Integers

  type byte = n: int | 0 <= n < 256

  /** `uleb128` as a value. */
  function Encode(n: nat): (r: seq<byte>)
    ensures |r| > 0
  {
    if n < 128 then [n] else [n % 128 + 128] + Encode(n / 128)
  }

  /** The encoder's loop. */
  method EncodeU64(number: nat) returns (out: seq<byte>)
    requires number < U64_LIMIT
    ensures out == Encode(number)
  {
    var n := number;
    out := [];
    while true
      invariant Encode(number) == out + Encode(n)
      decreases n
    {
      var b: byte := n % 128;
      var m := n / 128;
      if m != 0 { b := b + 128; }
      out := out + [b];
      if m == 0 { break; }
      n := m;
    }
  }

  /** Decoding from the front: the number and how many bytes spelled it. */
  function Decode(s: seq<byte>): Option<(nat, nat)> {
    if s == [] then None
    else if s[0] < 128 then Some((s[0], 1))
    else
      var d := Decode(s[1..]);
      if d.None? then None else Some((s[0] - 128 + 128 * d.value.0, d.value.1 + 1))
  }

  /** Decoding what was encoded, whatever follows it, gives the number back. */
  lemma {:induction false} DecodeEncode(n: nat, rest: seq<byte>)
    ensures Decode(Encode(n) + rest) == Some((n, |Encode(n)|))
  {
    var s := Encode(n) + rest;
    if n >= 128 {
      assert s[1..] == Encode(n / 128) + rest;
      DecodeEncode(n / 128, rest);
    }
  }

  /** No encoding is a prefix of another number's. */
  lemma PrefixFree(a: nat, b: nat)
    ensures Encode(a) <= Encode(b) ==> a == b
  {
    if Encode(a) <= Encode(b) {
      var rest := Encode(b)[|Encode(a)|..];
      assert Encode(b) == Encode(a) + rest;
      DecodeEncode(a, rest);
      DecodeEncode(b, []);
      assert Encode(b) + [] == Encode(b);
    }
  }

  /** Nothing shorter decodes to the same number, and nothing else as short. */
  lemma {:induction false} Minimal(n: nat, s: seq<byte>)
    requires Decode(s) == Some((n, |s|))
    ensures |Encode(n)| <= |s|
    ensures |Encode(n)| == |s| ==> s == Encode(n)
  {
    if s[0] >= 128 {
      var m := Decode(s[1..]).value.0;
      Minimal(m, s[1..]);
      assert n % 128 == s[0] - 128 && n / 128 == m;
      assert s == [s[0]] + s[1..];
    }
  }

  /** A 64-bit number takes at most ten bytes. */
  lemma {:induction false} LengthBound(n: nat, k: nat)
    requires n < Pow128(k) && k > 0
    ensures |Encode(n)| <= k
  {
    if n >= 128 { LengthBound(n / 128, k - 1); }
  }
  function Pow128(k: nat): nat { if k == 0 then 1 else 128 * Pow128(k - 1) }

  lemma U64Length(n: nat)
    requires n < U64_LIMIT
    ensures |Encode(n)| <= 10
  {
    assert Pow128(2) == 128 * 128;
    assert Pow128(10) >= U64_LIMIT;
    LengthBound(n, 10);
  }

  // ----- the signed preimage -----

  /** Personal-message intent, length, message. */
  function Preimage(message: seq<byte>): seq<byte> { [3, 0, 0] + Encode(|message|) + message }

  /** Transaction intent and bytes. */
  function TransactionPreimage(tx: seq<byte>): seq<byte> { [0, 0, 0] + tx }

  /** The hashed bytes determine the message, and no transaction hashes the same bytes. */
  lemma PreimageInjective(a: seq<byte>, b: seq<byte>)
    ensures Preimage(a) == Preimage(b) ==> a == b
    ensures Preimage(a) != TransactionPreimage(b)
  {
    var x, y := Encode(|a|) + a, Encode(|b|) + b;
    assert Preimage(a)[3..] == x && Preimage(b)[3..] == y;
    assert Preimage(a)[0] == 3 && TransactionPreimage(b)[0] == 0;
    DecodeEncode(|a|, a);
    DecodeEncode(|b|, b);
    assert x[|Encode(|a|)|..] == a && y[|Encode(|b|)|..] == b;
  }

  /** No preimage is a proper prefix of another: the length is fixed before the message starts. */
  lemma PreimagePrefixFree(a: seq<byte>, b: seq<byte>)
    ensures Preimage(a) <= Preimage(b) ==> a == b
  {
    if Preimage(a) <= Preimage(b) {
      var rest := Preimage(b)[|Preimage(a)|..];
      assert Preimage(b) == Preimage(a) + rest;
      LongerPreimage(a, rest, b);
    }
  }

  lemma LongerPreimage(a: seq<byte>, rest: seq<byte>, b: seq<byte>)
    requires Preimage(a) + rest == Preimage(b)
    ensures a == b
  {
    var x, y := Encode(|a|) + (a + rest), Encode(|b|) + b;
    assert (Preimage(a) + rest)[3..] == x && Preimage(b)[3..] == y;
    DecodeEncode(|a|, a + rest);
    DecodeEncode(|b|, b);
    assert x[|Encode(|a|)|..] == a + rest && y[|Encode(|b|)|..] == b;
  }
}
