/** Lower-case hexadecimal, the form in which an identity names a libsignal address. */
module Hex {
  import opened Wire

  function Digit(n: nat): (c: char)
    requires n < 16
    ensures DigitValue(c) == Some(n)
    ensures '0' <= c <= '9' || 'a' <= c <= 'f'
  {
    if n < 10 then '0' + n as char else 'a' + (n - 10) as char
  }

  /** The value of a hexadecimal digit of either case. */
  function DigitValue(c: char): Option<nat> {
    if '0' <= c <= '9' then Some((c - '0') as nat)
    else if 'a' <= c <= 'f' then Some(10 + (c - 'a') as nat)
    else if 'A' <= c <= 'F' then Some(10 + (c - 'A') as nat)
    else None
  }

  function Pair(b: byte): (s: string)
    ensures |s| == 2
  {
    [Digit(b as nat / 16), Digit(b as nat % 16)]
  }

  function Lower(bytes: Bytes): (s: string)
    ensures |s| == 2 * |bytes|
  {
    if bytes == [] then [] else Lower(bytes[..|bytes| - 1]) + Pair(bytes[|bytes| - 1])
  }

  /** `hex_lower`: one formatted pair appended per byte. */
  method HexLower(bytes: Bytes) returns (s: string)
    ensures s == Lower(bytes)
  {
    s := "";
    for i := 0 to |bytes|
      invariant s == Lower(bytes[..i])
    {
      assert bytes[..i + 1][..i] == bytes[..i];
      s := s + Pair(bytes[i]);
    }
    assert bytes[..|bytes|] == bytes;
  }

  /** Distinct identities have distinct addresses. */
  lemma {:induction false} LowerInjective(x: Bytes, y: Bytes)
    requires Lower(x) == Lower(y)
    ensures x == y
    decreases |x|
  {
    assert |x| == |y|;
    if x != [] {
      var n := |x| - 1;
      var s := Lower(x);
      assert s[..2 * n] == Lower(x[..n]) && s[2 * n..] == Pair(x[n]);
      assert s[..2 * n] == Lower(y[..n]) && s[2 * n..] == Pair(y[n]);
      PairInjective(x[n], y[n]);
      LowerInjective(x[..n], y[..n]);
      assert x == x[..n] + [x[n]] && y == y[..n] + [y[n]];
    }
  }

  lemma PairInjective(a: byte, b: byte)
    requires Pair(a) == Pair(b)
    ensures a == b
  {
    assert Pair(a)[0] == Pair(b)[0] && Pair(a)[1] == Pair(b)[1];
    assert DigitValue(Pair(a)[0]) == Some(a as nat / 16) && DigitValue(Pair(a)[1]) == Some(a as nat % 16);
    assert DigitValue(Pair(b)[0]) == Some(b as nat / 16) && DigitValue(Pair(b)[1]) == Some(b as nat % 16);
  }
}
