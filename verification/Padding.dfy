/** Length-hiding padding, and the branch-free membership test of the contact gate. */
module Padding {
  import opened Wire
  import Bits

  const BUCKETS: seq<nat> := [256, 1024, 4096, 16384, 65536, 262144]
  const LEN_PREFIX := 4
  const MAX_PLAINTEXT := 262140

  /** `b` is the least bucket that holds `needed` bytes. */
  ghost predicate IsLeastBucket(b: nat, needed: nat) {
    b in BUCKETS && needed <= b && forall other :: other in BUCKETS && needed <= other ==> b <= other
  }

  function Zeros(n: nat): (z: Bytes)
    ensures |z| == n && forall i :: 0 <= i < n ==> z[i] == 0
  {
    seq(n, _ => 0)
  }

  function PadTo(plaintext: Bytes, bucket: nat): Bytes
    requires |plaintext| + LEN_PREFIX <= bucket <= U32_MAX
  {
    U32(|plaintext|) + plaintext + Zeros(bucket - LEN_PREFIX - |plaintext|)
  }

  /** `pad_plaintext`: refused exactly when no bucket fits, else padded to the least one. */
  method PadPlaintext(plaintext: Bytes) returns (r: Option<Bytes>)
    ensures r.None? <==> |plaintext| > MAX_PLAINTEXT
    ensures r.Some? ==> IsLeastBucket(|r.value|, |plaintext| + LEN_PREFIX) && r.value == PadTo(plaintext, |r.value|)
    ensures r == Pad(plaintext)
  {
    if |plaintext| > U32_MAX { return None; }
    var needed := |plaintext| + LEN_PREFIX;
    var i := 0;
    while i < |BUCKETS| && BUCKETS[i] < needed
      invariant 0 <= i <= |BUCKETS|
      invariant forall j :: 0 <= j < i ==> BUCKETS[j] < needed
    {
      i := i + 1;
    }
    if i == |BUCKETS| {
      assert BUCKETS[5] < needed;
      return None;
    }
    BucketsAscend(i);
    var out := U32(|plaintext|);
    out := out + plaintext;
    out := out + Zeros(BUCKETS[i] - |out|);
    r := Some(out);
  }

  lemma BucketsAscend(i: nat)
    requires i < |BUCKETS|
    ensures forall j :: i <= j < |BUCKETS| ==> BUCKETS[i] <= BUCKETS[j] <= 262144
  {
  }

  /** The padded form, as a function. */
  function Pad(plaintext: Bytes): (r: Option<Bytes>)
    ensures r.Some? <==> |plaintext| <= MAX_PLAINTEXT
    ensures r.Some? ==> IsLeastBucket(|r.value|, |plaintext| + LEN_PREFIX)
  {
    var needed := |plaintext| + LEN_PREFIX;
    if needed <= 256 then Some(PadTo(plaintext, 256))
    else if needed <= 1024 then Some(PadTo(plaintext, 1024))
    else if needed <= 4096 then Some(PadTo(plaintext, 4096))
    else if needed <= 16384 then Some(PadTo(plaintext, 16384))
    else if needed <= 65536 then Some(PadTo(plaintext, 65536))
    else if needed <= 262144 then Some(PadTo(plaintext, 262144))
    else None
  }

  /** `unpad_plaintext`: refused exactly when the prefix is missing or claims too much. */
  function Unpad(padded: Bytes): (r: Option<Bytes>)
    ensures r.Some? ==> |r.value| + LEN_PREFIX <= |padded|
  {
    if |padded| < LEN_PREFIX then None
    else
      var n := FromU32(padded[..LEN_PREFIX]);
      if n > |padded| - LEN_PREFIX then None else Some(padded[LEN_PREFIX..LEN_PREFIX + n])
  }

  lemma UnpadOf(plaintext: Bytes, bucket: nat)
    requires |plaintext| + LEN_PREFIX <= bucket <= U32_MAX
    ensures |PadTo(plaintext, bucket)| == bucket && Unpad(PadTo(plaintext, bucket)) == Some(plaintext)
  {
    var padded := PadTo(plaintext, bucket);
    assert padded[..4] == U32(|plaintext|);
    U32RoundTrip(|plaintext|);
    assert padded[4..4 + |plaintext|] == plaintext;
  }

  /** Every plaintext up to the limit comes back, and equal buckets give equal sizes. */
  lemma PaddingRoundTrip(plaintext: Bytes)
    requires |plaintext| <= MAX_PLAINTEXT
    ensures Unpad(Pad(plaintext).value) == Some(plaintext)
  {
    UnpadOf(plaintext, |Pad(plaintext).value|);
  }

  /** Unpadding finds exactly what stands behind a truthful length prefix. */
  lemma UnpadIff(padded: Bytes, plaintext: Bytes)
    ensures Unpad(padded) == Some(plaintext) <==>
      |plaintext| <= U32_MAX && exists tail: Bytes :: padded == U32(|plaintext|) + plaintext + tail
  {
    if Unpad(padded) == Some(plaintext) {
      FromU32Inverse(padded[..4]);
      assert padded == U32(|plaintext|) + plaintext + padded[4 + |plaintext|..];
    }
    if |plaintext| <= U32_MAX && exists tail: Bytes :: padded == U32(|plaintext|) + plaintext + tail {
      var tail: Bytes :| padded == U32(|plaintext|) + plaintext + tail;
      assert padded[..4] == U32(|plaintext|);
      U32RoundTrip(|plaintext|);
      assert padded[4..4 + |plaintext|] == plaintext;
    }
  }

  lemma SizeRevealsOnlyTheBucket(x: Bytes, y: Bytes, bucket: nat)
    requires IsLeastBucket(bucket, |x| + LEN_PREFIX) && IsLeastBucket(bucket, |y| + LEN_PREFIX)
    ensures Pad(x).Some? && Pad(y).Some? && |Pad(x).value| == |Pad(y).value| == bucket
  {
    assert |x| + LEN_PREFIX <= bucket && bucket in BUCKETS;
    assert bucket <= 262144;
  }

  // ----- constant-time membership -----

  /** `ct_byte_eq`: 1 on equality, 0 otherwise, no early exit.  The final shift is arithmetic on
      a signed value, so it is written as a floor division. */
  method CtByteEq(a: Bytes, b: Bytes) returns (r: byte)
    ensures r == if a == b then 1 else 0
  {
    if |a| != |b| { return 0; }
    var diff: bv8 := 0;
    for i := 0 to |a|
      invariant diff == 0 <==> a[..i] == b[..i]
    {
      Bits.OrZero(diff, Xor(a[i], b[i]));
      diff := diff | Xor(a[i], b[i]);
      assert a[..i + 1] == a[..i] + [a[i]] && b[..i + 1] == b[..i] + [b[i]];
    }
    assert a[..|a|] == a && b[..|a|] == b;
    r := Branchless(diff);
  }

  function Xor(x: byte, y: byte): (d: bv8)
    ensures d == 0 <==> x == y
  {
    Bits.ThereAndBack(x as int);
    Bits.ThereAndBack(y as int);
    Bits.XorZero(x as bv8, y as bv8);
    (x as bv8) ^ (y as bv8)
  }

  /** "Zero gives one, anything else zero", without a branch. */
  function Branchless(diff: bv8): (r: byte)
    ensures r == if diff == 0 then 1 else 0
  {
    Bits.Range(diff);
    (((diff as int - 1) / 256) % 2) as byte
  }

  /** `ct_peer_contains` folds over every peer and is list membership. */
  method CtPeerContains(peers: seq<Bytes>, needle: Bytes) returns (found: bool)
    ensures found <==> needle in peers
  {
    var acc: bv8 := 0;
    for i := 0 to |peers|
      invariant acc != 0 <==> needle in peers[..i]
    {
      var eq := CtByteEq(peers[i], needle);
      assert peers[..i + 1] == peers[..i] + [peers[i]];
      OrFlag(acc, eq);
      acc := acc | (eq as bv8);
    }
    assert peers[..|peers|] == peers;
    found := acc != 0;
  }

  lemma OrFlag(acc: bv8, eq: byte)
    requires eq == 0 || eq == 1
    ensures (acc | (eq as bv8)) != 0 <==> acc != 0 || eq == 1
  {
  }
}
