/** BLAKE3 hashcash: the leading-zero count, the verifier and the brute-force prover. */
module Hashcash {
  import opened Wire

  const U64_MODULUS: nat := 0x1_0000_0000_0000_0000

  function Pow2(n: nat): (r: nat)
    ensures r > 0
  {
    if n == 0 then 1 else 2 * Pow2(n - 1)
  }

  /** The big-endian value of a byte string. */
  function Value(bytes: Bytes): nat {
    if bytes == [] then 0 else Value(bytes[..|bytes| - 1]) * 256 + bytes[|bytes| - 1] as nat
  }

  /** `u8::leading_zeros`. */
  function ByteZeros(b: byte): (z: nat)
    ensures z <= 8
  {
    if b >= 128 then 0 else if b >= 64 then 1 else if b >= 32 then 2 else if b >= 16 then 3
    else if b >= 8 then 4 else if b >= 4 then 5 else if b >= 2 then 6 else if b >= 1 then 7 else 8
  }

  lemma ByteZerosMeaning(b: byte, k: nat)
    requires k <= 8
    ensures ByteZeros(b) >= k <==> b as nat < Pow2(8 - k)
  {
    assert Pow2(1) == 2 && Pow2(2) == 4 && Pow2(3) == 8 && Pow2(4) == 16;
    assert Pow2(5) == 32 && Pow2(6) == 64 && Pow2(7) == 128 && Pow2(8) == 256;
    assert k in [0, 1, 2, 3, 4, 5, 6, 7, 8];
  }

  lemma {:induction false} PowAdd(m: nat, n: nat)
    ensures Pow2(m + n) == Pow2(m) * Pow2(n)
    decreases n
  {
    if n > 0 {
      PowAdd(m, n - 1);
      assert Pow2(m + n) == 2 * Pow2(m + n - 1);
    }
  }

  /** The value read from the left: the first byte weighs 256 to the number of later ones. */
  lemma {:induction false} ValueHead(bytes: Bytes)
    requires bytes != []
    ensures Value(bytes) == bytes[0] as nat * Pow2(8 * (|bytes| - 1)) + Value(bytes[1..])
    ensures Value(bytes[1..]) < Pow2(8 * (|bytes| - 1))
    decreases |bytes|
  {
    var n := |bytes| - 1;
    if n == 0 {
      assert bytes[..0] == [] && bytes[1..] == [];
    } else {
      var front, tail := bytes[..n], bytes[1..];
      ValueHead(front);
      assert tail[..|tail| - 1] == front[1..];
      PowAdd(8 * (n - 1), 8);
      var high, low, last := front[0] as nat, Value(front[1..]), bytes[n] as nat;
      assert Pow2(8) == 256;
      assert Pow2(8 * n) == Pow2(8 * (n - 1)) * 256;
      assert Value(tail) == low * 256 + last;
      Distribute(high, Pow2(8 * (n - 1)), low, last);
    }
  }

  lemma Distribute(high: nat, weight: nat, low: nat, last: nat)
    ensures (high * weight + low) * 256 + last == high * (weight * 256) + (low * 256 + last)
  {
  }

  /** What the loop counts: eight per leading zero byte, then the first other byte's own zeros. */
  function ZeroBits(bytes: Bytes): nat {
    if bytes == [] then 0
    else if bytes[0] == 0 then 8 + ZeroBits(bytes[1..])
    else ByteZeros(bytes[0])
  }

  lemma ScaledBound(b: nat, weight: nat, low: nat, bound: nat)
    requires low < weight
    ensures b * weight + low < bound * weight <==> b < bound
  {
    if b < bound {
      assert (b + 1) * weight <= bound * weight;
    } else {
      assert b * weight >= bound * weight;
    }
  }

  /** Read as a big-endian number, `bytes` has at least `k` leading zero bits. */
  ghost predicate StartsWithZeros(bytes: Bytes, k: nat) {
    k <= 8 * |bytes| && Value(bytes) < Pow2(8 * |bytes| - k)
  }

  /** At least `k` leading zero bits is exactly a value below 2 to the remaining width. */
  lemma {:induction false} ZeroBitsMeaning(bytes: Bytes, k: nat)
    requires k <= 8 * |bytes|
    ensures ZeroBits(bytes) >= k <==> Value(bytes) < Pow2(8 * |bytes| - k)
    decreases |bytes|
  {
    if bytes != [] {
      var width := 8 * (|bytes| - 1);
      ValueHead(bytes);
      if k <= 8 {
        ByteZerosMeaning(bytes[0], k);
        PowAdd(8 - k, width);
        ScaledBound(bytes[0] as nat, Pow2(width), Value(bytes[1..]), Pow2(8 - k));
        if k > 0 && bytes[0] == 0 { assert ByteZeros(bytes[0]) == 8; }
      } else if bytes[0] == 0 {
        ZeroBitsMeaning(bytes[1..], k - 8);
      } else {
        PowAdd(width - (k - 8), k - 8);
        assert Pow2(8 * |bytes| - k) <= Pow2(width) by {
          assert Pow2(width) == Pow2(8 * |bytes| - k) * Pow2(k - 8);
          AtLeast(Pow2(8 * |bytes| - k), Pow2(k - 8));
        }
        AtLeast(Pow2(width), bytes[0] as nat);
      }
    }
  }

  lemma AtLeast(x: nat, factor: nat)
    requires factor > 0
    ensures x <= x * factor && x <= factor * x
  {
    assert x * factor == x + x * (factor - 1);
  }

  /** `leading_zero_bits`, counted with an early break. */
  method LeadingZeroBits(bytes: Bytes) returns (count: nat)
    ensures count <= 8 * |bytes|
    ensures forall k: nat :: count >= k <==> StartsWithZeros(bytes, k)
  {
    count := 0;
    var i := 0;
    while i < |bytes|
      invariant 0 <= i <= |bytes| && count == 8 * i
      invariant ZeroBits(bytes) == count + ZeroBits(bytes[i..])
    {
      assert bytes[i..][1..] == bytes[i + 1..];
      if bytes[i] == 0 {
        count := count + 8;
      } else {
        count := count + ByteZeros(bytes[i]);
        break;
      }
      i := i + 1;
    }
    forall k: nat ensures count >= k <==> StartsWithZeros(bytes, k) {
      if k <= 8 * |bytes| { ZeroBitsMeaning(bytes, k); }
    }
  }

  // ----- the proof of work -----

  function NonceBytes(nonce: nat): Bytes
    requires nonce < U64_MODULUS
  {
    U32(nonce / 0x1_0000_0000) + U32(nonce % 0x1_0000_0000)
  }

  /** `nonce` passes: the hash of challenge and nonce starts with `bits` zeros. */
  ghost predicate Passes(hash: Bytes -> Bytes, challenge: Bytes, nonce: nat, bits: nat)
    requires nonce < U64_MODULUS
  {
    StartsWithZeros(hash(challenge + NonceBytes(nonce)), bits)
  }

  /** `hashcash_verify` decides `Passes`, for every difficulty, attainable or not. */
  method Verify(hash: Bytes -> Bytes, challenge: Bytes, nonce: nat, bits: nat) returns (ok: bool)
    requires nonce < U64_MODULUS
    ensures ok <==> Passes(hash, challenge, nonce, bits)
  {
    var zeros := LeadingZeroBits(hash(challenge + NonceBytes(nonce)));
    ok := zeros >= bits;
  }

  /** `wrapping_add`; below the modulus it does not wrap. */
  function Wrapped(n: nat, ghost bound: nat): (r: nat)
    requires bound < U64_MODULUS
    ensures n <= bound ==> r == n
  {
    n % U64_MODULUS
  }

  /** `hashcash_compute` returns the least passing nonce.  It stops only if some u64 nonce passes;
      otherwise the counter wraps round forever. */
  method Compute(hash: Bytes -> Bytes, challenge: Bytes, bits: nat, ghost solution: nat) returns (nonce: nat)
    requires solution < U64_MODULUS && Passes(hash, challenge, solution, bits)
    ensures nonce < U64_MODULUS && Passes(hash, challenge, nonce, bits)
    ensures forall n :: 0 <= n < nonce ==> !Passes(hash, challenge, n, bits)
  {
    nonce := 0;
    while true
      invariant nonce <= solution
      invariant forall n :: 0 <= n < nonce ==> !Passes(hash, challenge, n, bits)
      decreases solution - nonce
    {
      var ok := Verify(hash, challenge, nonce, bits);
      if ok { return; }
      nonce := Wrapped(nonce + 1, solution);
    }
  }

  /** A difficulty beyond the hash's own width has no solution. */
  lemma ImpossibleDifficulty(hash: Bytes -> Bytes, challenge: Bytes, bits: nat)
    requires forall x :: 8 * |hash(x)| < bits
    ensures forall nonce :: 0 <= nonce < U64_MODULUS ==> !Passes(hash, challenge, nonce, bits)
  {
  }
}
