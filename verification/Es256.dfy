/**
 The fixed-width signature encoding of ES256 tokens (`encodeRS` and `verifyES256` of
 pkg/auth/jwt.go), R and S as 32 big-endian bytes each, as section 3.4 of RFC 7518 asks.

 Elliptic-curve verification itself is an arbitrary predicate on the two integers.
 */
module Es256 {

  type Byte = n: int | 0 <= n < 256

  const HALF := 32

  function Power(k: nat): nat {
    if k == 0 then 1 else 256 * Power(k - 1)
  }

  /** `big.Int.SetBytes`: the big-endian value. */
  function Value(bytes: seq<Byte>): nat {
    if bytes == [] then 0 else 256 * Value(bytes[..|bytes| - 1]) + bytes[|bytes| - 1]
  }

  /** `big.Int.Bytes`: the shortest big-endian form, empty for zero. */
  function Bytes(n: nat): seq<Byte> {
    if n == 0 then [] else Bytes(n / 256) + [n % 256]
  }

  function Zeros(k: nat): seq<Byte> {
    seq(k, _ => 0)
  }

  /** The value right-aligned in one half. */
  function Fixed(n: nat): seq<Byte>
    requires |Bytes(n)| <= HALF
  {
    Zeros(HALF - |Bytes(n)|) + Bytes(n)
  }

  lemma {:induction false} ValueBound(bytes: seq<Byte>)
    ensures Value(bytes) < Power(|bytes|)
  {
    if bytes != [] {
      ValueBound(bytes[..|bytes| - 1]);
    }
  }

  /** A number fits in k bytes exactly when it is below 256 to the k. */
  lemma {:induction false} BytesFit(n: nat, k: nat)
    ensures |Bytes(n)| <= k <==> n < Power(k)
  {
    if n > 0 && k > 0 {
      BytesFit(n / 256, k - 1);
    } else if n == 0 {
      PowerPositive(k);
    }
  }

  lemma {:induction false} PowerPositive(k: nat)
    ensures Power(k) > 0
  {
    if k > 0 {
      PowerPositive(k - 1);
    }
  }

  lemma {:induction false} PaddedValue(z: nat, n: nat)
    ensures Value(Zeros(z) + Bytes(n)) == n
  {
    var s := Zeros(z) + Bytes(n);
    if n > 0 {
      PaddedValue(z, n / 256);
      assert s[..|s| - 1] == Zeros(z) + Bytes(n / 256);
    } else if z > 0 {
      PaddedValue(z - 1, 0);
      assert s[..|s| - 1] == Zeros(z - 1) + Bytes(0);
    }
  }

  lemma {:induction false} ValueInjective(a: seq<Byte>, b: seq<Byte>)
    requires |a| == |b| && Value(a) == Value(b)
    ensures a == b
  {
    if a != [] {
      var n := |a| - 1;
      assert a[n] == b[n] && Value(a[..n]) == Value(b[..n]);
      ValueInjective(a[..n], b[..n]);
      assert a == a[..n] + [a[n]] && b == b[..n] + [b[n]];
    }
  }

  /** Every 32-byte half, leading zeros included, is the encoding of its own value. */
  lemma FixedOfValue(half: seq<Byte>)
    requires |half| == HALF
    ensures |Bytes(Value(half))| <= HALF && Fixed(Value(half)) == half
  {
    ValueBound(half);
    BytesFit(Value(half), HALF);
    PaddedValue(HALF - |Bytes(Value(half))|, Value(half));
    ValueInjective(Fixed(Value(half)), half);
  }

  /** And every number below 2^256 is the value of its encoding. */
  lemma ValueOfFixed(n: nat)
    requires n < Power(HALF)
    ensures |Bytes(n)| <= HALF && |Fixed(n)| == HALF && Value(Fixed(n)) == n
  {
    BytesFit(n, HALF);
    PaddedValue(HALF - |Bytes(n)|, n);
  }

  method CopyInto(out: array<Byte>, at: nat, bytes: seq<Byte>)
    requires at + |bytes| <= out.Length
    modifies out
    ensures out[..] == old(out[..at]) + bytes + old(out[at + |bytes|..])
  {
    for i := 0 to |bytes|
      invariant out[..] == old(out[..at]) + bytes[..i] + old(out[at + i..])
    {
      out[at + i] := bytes[i];
    }
  }

  /** Both byte strings right-aligned in their 32-byte halves of a zeroed buffer. */
  method Align(rb: seq<Byte>, sb: seq<Byte>) returns (out: array<Byte>)
    requires |rb| <= HALF && |sb| <= HALF
    ensures fresh(out)
    ensures out[..] == (Zeros(HALF - |rb|) + rb) + (Zeros(HALF - |sb|) + sb)
  {
    out := new Byte[64](_ => 0);
    assert out[..32 - |rb|] == Zeros(32 - |rb|) && out[32..] == Zeros(32);
    CopyInto(out, 32 - |rb|, rb);
    assert out[..] == (Zeros(32 - |rb|) + rb) + Zeros(32);
    assert out[..64 - |sb|] == (Zeros(32 - |rb|) + rb) + Zeros(32 - |sb|) && out[64..] == [];
    CopyInto(out, 64 - |sb|, sb);
  }

  method EncodeRS(r: nat, s: nat) returns (out: array<Byte>)
    requires r < Power(HALF) && s < Power(HALF)
    ensures fresh(out) && |Bytes(r)| <= HALF && |Bytes(s)| <= HALF && out[..] == Fixed(r) + Fixed(s)
  {
    BytesFit(r, HALF);
    BytesFit(s, HALF);
    out := Align(Bytes(r), Bytes(s));
  }

  /**
   The verdict is that of the length check and the curve; re-encoding and comparing never changes
   it.
   */
  method VerifyES256(verify: (nat, nat) -> bool, sig: seq<Byte>) returns (ok: bool)
    ensures ok == (|sig| == 64 && verify(Value(sig[..32]), Value(sig[32..])))
  {
    if |sig| != 64 {
      return false;
    }
    var r, s := Value(sig[..32]), Value(sig[32..]);
    if !verify(r, s) {
      return false;
    }
    ValueBound(sig[..32]);
    ValueBound(sig[32..]);
    var expected := EncodeRS(r, s);
    FixedOfValue(sig[..32]);
    FixedOfValue(sig[32..]);
    assert sig == sig[..32] + sig[32..];
    return expected[..] == sig;
  }

  /** Decoding what was encoded gives back both integers, so a signer's pair is judged as signed. */
  lemma EncodeDecode(r: nat, s: nat)
    requires r < Power(HALF) && s < Power(HALF)
    ensures |Bytes(r)| <= HALF && |Bytes(s)| <= HALF
    ensures var sig := Fixed(r) + Fixed(s);
            |sig| == 64 && Value(sig[..32]) == r && Value(sig[32..]) == s
  {
    ValueOfFixed(r);
    ValueOfFixed(s);
    var sig := Fixed(r) + Fixed(s);
    assert sig[..32] == Fixed(r) && sig[32..] == Fixed(s);
  }

  /** Two different 64-byte signatures never decode to the same pair. */
  lemma DecodeInjective(a: seq<Byte>, b: seq<Byte>)
    requires |a| == |b| == 64
    requires Value(a[..32]) == Value(b[..32]) && Value(a[32..]) == Value(b[32..])
    ensures a == b
  {
    ValueInjective(a[..32], b[..32]);
    ValueInjective(a[32..], b[32..]);
    assert a == a[..32] + a[32..] && b == b[..32] + b[32..];
  }

  /** The first byte is the most significant. */
  lemma {:induction false} BigEndian(first: Byte, rest: seq<Byte>)
    ensures Value([first] + rest) == first * Power(|rest|) + Value(rest)
  {
    var s := [first] + rest;
    if rest == [] {
      assert s[..0] == [];
    } else {
      var n := |rest| - 1;
      BigEndian(first, rest[..n]);
      assert s[..|s| - 1] == [first] + rest[..n];
    }
  }
}
