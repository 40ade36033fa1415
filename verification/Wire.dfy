/** Bytes, big-endian integers and the total readers behind the crypto core's cursor. */
module Wire {

  newtype byte = x: int | 0 <= x < 256
  type Bytes = seq<byte>

  datatype Option<+T> = None | Some(value: T)

  const U16_MAX: nat := 0xFFFF
  const U32_MAX: nat := 0xFFFF_FFFF

  function U16(n: nat): (b: Bytes)
    requires n <= U16_MAX
    ensures |b| == 2
  {
    [(n / 256) as byte, (n % 256) as byte]
  }

  function U32(n: nat): (b: Bytes)
    requires n <= U32_MAX
    ensures |b| == 4
  {
    U16(n / 0x1_0000) + U16(n % 0x1_0000)
  }

  function FromU16(b: Bytes): (n: nat)
    requires |b| == 2
    ensures n <= U16_MAX
  {
    b[0] as int * 256 + b[1] as int
  }

  function FromU32(b: Bytes): (n: nat)
    requires |b| == 4
    ensures n <= U32_MAX
  {
    FromU16(b[..2]) * 0x1_0000 + FromU16(b[2..])
  }

  function Blob16(b: Bytes): Bytes requires |b| <= U16_MAX { U16(|b|) + b }
  function Blob32(b: Bytes): Bytes requires |b| <= U32_MAX { U32(|b|) + b }

  /** Outcome of one read: what was read and what is left, or the truncation error. */
  datatype Parsed<+T> = Fail | Got(value: T, rest: Bytes) {
    predicate IsFailure() { Fail? }
    function PropagateFailure<U>(): Parsed<U> requires Fail? { Fail }
    function Extract(): (T, Bytes) requires Got? { (value, rest) }
  }

  function ReadBytes(buf: Bytes, n: nat): Parsed<Bytes> {
    if |buf| < n then Fail else Got(buf[..n], buf[n..])
  }

  function ReadU8(buf: Bytes): Parsed<byte> {
    var (b, rest) :- ReadBytes(buf, 1);
    Got(b[0], rest)
  }

  function ReadU16(buf: Bytes): Parsed<nat> {
    var (b, rest) :- ReadBytes(buf, 2);
    Got(FromU16(b), rest)
  }

  function ReadU32(buf: Bytes): Parsed<nat> {
    var (b, rest) :- ReadBytes(buf, 4);
    Got(FromU32(b), rest)
  }

  function ReadBlob16(buf: Bytes): Parsed<Bytes> {
    var (n, rest) :- ReadU16(buf);
    ReadBytes(rest, n)
  }

  function ReadBlob32(buf: Bytes): Parsed<Bytes> {
    var (n, rest) :- ReadU32(buf);
    ReadBytes(rest, n)
  }

  /** An element count, refused when it exceeds the bytes still in the buffer. */
  function ReadCount(buf: Bytes): Parsed<nat> {
    var (n, rest) :- ReadU32(buf);
    if n > |rest| then Fail else Got(n, rest)
  }

  // ----- every reader undoes its writer, whatever follows -----

  lemma ReadBytesOf(b: Bytes, rest: Bytes)
    ensures ReadBytes(b + rest, |b|) == Got(b, rest)
  {
    assert (b + rest)[..|b|] == b && (b + rest)[|b|..] == rest;
  }

  lemma U32RoundTrip(n: nat)
    requires n <= U32_MAX
    ensures FromU32(U32(n)) == n
  {
    var b := U32(n);
    assert b[..2] == U16(n / 0x1_0000) && b[2..] == U16(n % 0x1_0000);
  }

  /** Most significant byte first. */
  lemma U32IsBigEndian(n: nat)
    requires n <= U32_MAX
    ensures
      var b := U32(n);
      n == b[0] as int * 0x100_0000 + b[1] as int * 0x1_0000 + b[2] as int * 0x100 + b[3] as int
  {
    var b := U32(n);
    assert b[0] == (n / 0x1_0000 / 256) as byte && b[1] == (n / 0x1_0000 % 256) as byte;
    assert b[2] == (n % 0x1_0000 / 256) as byte && b[3] == (n % 0x1_0000 % 256) as byte;
  }

  lemma ReadU32Of(n: nat, rest: Bytes)
    requires n <= U32_MAX
    ensures ReadU32(U32(n) + rest) == Got(n, rest)
  {
    ReadBytesOf(U32(n), rest);
    U32RoundTrip(n);
  }

  lemma ReadBlob16Of(b: Bytes, rest: Bytes)
    requires |b| <= U16_MAX
    ensures ReadBlob16(Blob16(b) + rest) == Got(b, rest)
  {
    assert Blob16(b) + rest == U16(|b|) + (b + rest);
    ReadBytesOf(U16(|b|), b + rest);
    ReadBytesOf(b, rest);
  }

  lemma ReadBlob32Of(b: Bytes, rest: Bytes)
    requires |b| <= U32_MAX
    ensures ReadBlob32(Blob32(b) + rest) == Got(b, rest)
  {
    assert Blob32(b) + rest == U32(|b|) + (b + rest);
    ReadU32Of(|b|, b + rest);
    ReadBytesOf(b, rest);
  }

  lemma ReadCountOf(n: nat, rest: Bytes)
    requires n <= U32_MAX && n <= |rest|
    ensures ReadCount(U32(n) + rest) == Got(n, rest)
  {
    ReadU32Of(n, rest);
  }

  // ----- and reads only what its writer could have written -----

  lemma FromU16Inverse(b: Bytes)
    requires |b| == 2
    ensures U16(FromU16(b)) == b
  {
  }

  lemma FromU32Inverse(b: Bytes)
    requires |b| == 4
    ensures U32(FromU32(b)) == b
  {
    FromU16Inverse(b[..2]);
    FromU16Inverse(b[2..]);
    HighLow(FromU16(b[..2]), FromU16(b[2..]));
  }

  lemma HighLow(high: nat, low: nat)
    requires low <= U16_MAX
    ensures (high * 0x1_0000 + low) / 0x1_0000 == high && (high * 0x1_0000 + low) % 0x1_0000 == low
  {
  }

  lemma ReadBytesInverse(buf: Bytes, n: nat)
    requires ReadBytes(buf, n).Got?
    ensures |ReadBytes(buf, n).value| == n && buf == ReadBytes(buf, n).value + ReadBytes(buf, n).rest
  {
  }

  lemma ReadU8Inverse(buf: Bytes)
    requires ReadU8(buf).Got?
    ensures buf == [ReadU8(buf).value] + ReadU8(buf).rest
  {
    ReadBytesInverse(buf, 1);
  }

  lemma ReadU16Inverse(buf: Bytes)
    requires ReadU16(buf).Got?
    ensures ReadU16(buf).value <= U16_MAX && buf == U16(ReadU16(buf).value) + ReadU16(buf).rest
  {
    ReadBytesInverse(buf, 2);
    FromU16Inverse(ReadBytes(buf, 2).value);
  }

  lemma ReadU32Inverse(buf: Bytes)
    requires ReadU32(buf).Got?
    ensures ReadU32(buf).value <= U32_MAX && buf == U32(ReadU32(buf).value) + ReadU32(buf).rest
  {
    ReadBytesInverse(buf, 4);
    FromU32Inverse(ReadBytes(buf, 4).value);
  }

  lemma ReadBlob16Inverse(buf: Bytes)
    requires ReadBlob16(buf).Got?
    ensures |ReadBlob16(buf).value| <= U16_MAX && buf == Blob16(ReadBlob16(buf).value) + ReadBlob16(buf).rest
  {
    ReadU16Inverse(buf);
    ReadBytesInverse(ReadU16(buf).rest, ReadU16(buf).value);
  }

  lemma ReadBlob32Inverse(buf: Bytes)
    requires ReadBlob32(buf).Got?
    ensures |ReadBlob32(buf).value| <= U32_MAX && buf == Blob32(ReadBlob32(buf).value) + ReadBlob32(buf).rest
  {
    ReadU32Inverse(buf);
    ReadBytesInverse(ReadU32(buf).rest, ReadU32(buf).value);
  }

  /** A count that is accepted leaves at least that many bytes; one that does not is refused. */
  lemma ReadCountMeaning(n: nat, rest: Bytes)
    requires n <= U32_MAX
    ensures ReadCount(U32(n) + rest) == if n <= |rest| then Got(n, rest) else Fail
  {
    ReadU32Of(n, rest);
  }

  // ----- a successful read does not look past what it consumed -----

  lemma ReadBytesExtends(buf: Bytes, n: nat, more: Bytes)
    requires n <= |buf|
    ensures ReadBytes(buf + more, n) == Got(buf[..n], buf[n..] + more)
  {
    assert (buf + more)[..n] == buf[..n] && (buf + more)[n..] == buf[n..] + more;
  }

  lemma ReadU8Extends(buf: Bytes, more: Bytes)
    requires ReadU8(buf).Got?
    ensures ReadU8(buf + more) == Got(ReadU8(buf).value, ReadU8(buf).rest + more)
  {
    ReadBytesExtends(buf, 1, more);
  }

  lemma ReadU32Extends(buf: Bytes, more: Bytes)
    requires ReadU32(buf).Got?
    ensures ReadU32(buf + more) == Got(ReadU32(buf).value, ReadU32(buf).rest + more)
  {
    ReadBytesExtends(buf, 4, more);
  }

  lemma ReadBlob16Extends(buf: Bytes, more: Bytes)
    requires ReadBlob16(buf).Got?
    ensures ReadBlob16(buf + more) == Got(ReadBlob16(buf).value, ReadBlob16(buf).rest + more)
  {
    ReadBytesExtends(buf, 2, more);
    ReadBytesExtends(ReadU16(buf).rest, ReadU16(buf).value, more);
  }

  lemma ReadBlob32Extends(buf: Bytes, more: Bytes)
    requires ReadBlob32(buf).Got?
    ensures ReadBlob32(buf + more) == Got(ReadBlob32(buf).value, ReadBlob32(buf).rest + more)
  {
    ReadBytesExtends(buf, 4, more);
    ReadBytesExtends(ReadU32(buf).rest, ReadU32(buf).value, more);
  }

  /** The crypto core's `Cursor`: each method advances `buf` past what it returns. */
  class Cursor {
    var buf: Bytes

    constructor (bytes: Bytes)
      ensures buf == bytes
    {
      buf := bytes;
    }

    predicate IsEmpty() reads this { buf == [] }

    method Take(n: nat) returns (r: Option<Bytes>)
      modifies this
      ensures match ReadBytes(old(buf), n)
        case Fail => r.None? && buf == old(buf)
        case Got(v, rest) => r == Some(v) && buf == rest
    {
      if |buf| < n { return None; }
      r := Some(buf[..n]);
      buf := buf[n..];
    }

    method U8() returns (r: Option<byte>)
      modifies this
      ensures match ReadU8(old(buf))
        case Fail => r.None? && buf == old(buf)
        case Got(v, rest) => r == Some(v) && buf == rest
    {
      var b := Take(1);
      r := if b.None? then None else Some(b.value[0]);
    }

    method U16() returns (r: Option<nat>)
      modifies this
      ensures match ReadU16(old(buf))
        case Fail => r.None? && buf == old(buf)
        case Got(v, rest) => r == Some(v) && buf == rest
    {
      var b := Take(2);
      r := if b.None? then None else Some(FromU16(b.value));
    }

    method U32() returns (r: Option<nat>)
      modifies this
      ensures match ReadU32(old(buf))
        case Fail => r.None? && buf == old(buf)
        case Got(v, rest) => r == Some(v) && buf == rest
    {
      var b := Take(4);
      r := if b.None? then None else Some(FromU32(b.value));
    }

    /** A truncated blob leaves its length prefix consumed; every caller gives up there. */
    method U16Blob() returns (r: Option<Bytes>)
      modifies this
      ensures match ReadBlob16(old(buf))
        case Fail => r.None? && buf == (if |old(buf)| < 2 then old(buf) else old(buf)[2..])
        case Got(v, rest) => r == Some(v) && buf == rest
    {
      var n := U16();
      if n.None? { return None; }
      r := Take(n.value);
    }

    method U32Blob() returns (r: Option<Bytes>)
      modifies this
      ensures match ReadBlob32(old(buf))
        case Fail => r.None? && buf == (if |old(buf)| < 4 then old(buf) else old(buf)[4..])
        case Got(v, rest) => r == Some(v) && buf == rest
    {
      var n := U32();
      if n.None? { return None; }
      r := Take(n.value);
    }

    method Count() returns (r: Option<nat>)
      modifies this
      ensures match ReadCount(old(buf))
        case Fail => r.None? && buf == (if |old(buf)| < 4 then old(buf) else old(buf)[4..])
        case Got(v, rest) => r == Some(v) && buf == rest
    {
      var n := U32();
      if n.None? || n.value > |buf| { return None; }
      r := n;
    }
  }
}
