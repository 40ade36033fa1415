/** The published prekey bundle: the writer `encode_bundle` and the reader `decode_bundle`. */
module PreKeyBundle {
  import opened Wire

  const BUNDLE_VERSION: byte := 3
  const DELIVERY_TOKEN_VERIFY_KEY_LEN := 33

  /** libsignal's key parsers.  A key is named by its canonical serialization, so a parser maps
      any bytes it accepts to the canonical bytes of the key they denote. */
  datatype KeyParsers = KeyParsers(
    publicKey: Bytes -> Option<Bytes>,
    kemKey: Bytes -> Option<Bytes>,
    identityKey: Bytes -> Option<Bytes>,
    deviceId: nat -> bool)

  datatype Bundle = Bundle(
    registrationId: nat, deviceId: nat,
    oneTime: Option<(nat, Bytes)>,
    signedId: nat, signedKey: Bytes, signedSig: Bytes,
    kyberId: nat, kyberKey: Bytes, kyberSig: Bytes,
    identity: Bytes, verifyKey: Bytes)

  /** What `publish_bundle` hands to the writer: a one-time key, ids in u32, keys the parsers
      know as canonical, and fields short enough for their length prefixes. */
  ghost predicate Publishable(k: KeyParsers, b: Bundle) {
    && b.registrationId <= U32_MAX && b.deviceId <= 255 && k.deviceId(b.deviceId)
    && b.oneTime.Some? && b.oneTime.value.0 <= U32_MAX
    && |b.oneTime.value.1| <= U16_MAX && k.publicKey(b.oneTime.value.1) == Some(b.oneTime.value.1)
    && b.signedId <= U32_MAX && |b.signedKey| <= U16_MAX && k.publicKey(b.signedKey) == Some(b.signedKey)
    && |b.signedSig| <= U16_MAX
    && b.kyberId <= U32_MAX && |b.kyberKey| <= U32_MAX && k.kemKey(b.kyberKey) == Some(b.kyberKey)
    && |b.kyberSig| <= U16_MAX
    && |b.identity| <= U16_MAX && k.identityKey(b.identity) == Some(b.identity)
    && |b.verifyKey| == DELIVERY_TOKEN_VERIFY_KEY_LEN
  }

  // ----- layout -----

  ghost predicate Sized(b: Bundle) {
    && b.registrationId <= U32_MAX && b.deviceId <= U32_MAX
    && b.oneTime.Some? && b.oneTime.value.0 <= U32_MAX && |b.oneTime.value.1| <= U16_MAX
    && b.signedId <= U32_MAX && |b.signedKey| <= U16_MAX && |b.signedSig| <= U16_MAX
    && b.kyberId <= U32_MAX && |b.kyberKey| <= U32_MAX && |b.kyberSig| <= U16_MAX
    && |b.identity| <= U16_MAX && |b.verifyKey| <= U16_MAX
  }

  ghost function LayoutHead(b: Bundle): Bytes requires Sized(b) {
    [BUNDLE_VERSION] + U32(b.registrationId) + U32(b.deviceId)
      + [1] + U32(b.oneTime.value.0) + Blob16(b.oneTime.value.1)
  }

  ghost function LayoutSigned(b: Bundle): Bytes requires Sized(b) {
    U32(b.signedId) + Blob16(b.signedKey) + Blob16(b.signedSig)
  }

  ghost function LayoutKyber(b: Bundle): Bytes requires Sized(b) {
    U32(b.kyberId) + Blob32(b.kyberKey) + Blob16(b.kyberSig)
  }

  ghost function LayoutTail(b: Bundle): Bytes requires Sized(b) {
    Blob16(b.identity) + Blob16(b.verifyKey)
  }

  ghost function Layout(b: Bundle): Bytes requires Sized(b) {
    LayoutHead(b) + (LayoutSigned(b) + (LayoutKyber(b) + LayoutTail(b)))
  }

  /** `write_u16_blob` aborts the process past the prefix; the precondition says it never must. */
  method EncodeBundle(b: Bundle) returns (out: Bytes)
    requires Sized(b)
    ensures out == Layout(b)
  {
    out := [BUNDLE_VERSION];
    out := out + U32(b.registrationId);
    out := out + U32(b.deviceId);
    out := out + [1];
    out := out + U32(b.oneTime.value.0);
    out := out + Blob16(b.oneTime.value.1);
    ghost var head := out;
    out := out + U32(b.signedId);
    out := out + Blob16(b.signedKey);
    out := out + Blob16(b.signedSig);
    assert out == head + LayoutSigned(b);
    ghost var signed := out;
    out := out + U32(b.kyberId);
    out := out + Blob32(b.kyberKey);
    out := out + Blob16(b.kyberSig);
    assert out == signed + LayoutKyber(b);
    ghost var kyber := out;
    out := out + Blob16(b.identity);
    out := out + Blob16(b.verifyKey);
    assert out == kyber + LayoutTail(b);
  }

  // ----- reader -----

  datatype Head = Head(registrationId: nat, deviceId: nat, oneTime: Option<(nat, Bytes)>)
  datatype SignedKey = SignedKey(id: nat, key: Bytes, sig: Bytes)

  function Lift<T>(o: Option<T>, rest: Bytes): Parsed<T> {
    match o case None => Fail case Some(v) => Got(v, rest)
  }

  function ReadKey16(parse: Bytes -> Option<Bytes>, buf: Bytes): Parsed<Bytes> {
    var (raw, rest) :- ReadBlob16(buf);
    Lift(parse(raw), rest)
  }

  function ReadKey32(parse: Bytes -> Option<Bytes>, buf: Bytes): Parsed<Bytes> {
    var (raw, rest) :- ReadBlob32(buf);
    Lift(parse(raw), rest)
  }

  function ReadOneTime(k: KeyParsers, buf: Bytes): Parsed<Option<(nat, Bytes)>> {
    var (flag, rest) :- ReadU8(buf);
    if flag == 0 then Got(None, rest)
    else
      var (id, rest) :- ReadU32(rest);
      var (key, rest) :- ReadKey16(k.publicKey, rest);
      Got(Some((id, key)), rest)
  }

  function ReadHead(k: KeyParsers, buf: Bytes): Parsed<Head> {
    var (version, rest) :- ReadU8(buf);
    if version != BUNDLE_VERSION then Fail
    else
      var (registrationId, rest) :- ReadU32(rest);
      var (deviceId, rest) :- ReadU32(rest);
      if deviceId > 255 || !k.deviceId(deviceId) then Fail
      else
        var (oneTime, rest) :- ReadOneTime(k, rest);
        Got(Head(registrationId, deviceId, oneTime), rest)
  }

  function ReadSigned(k: KeyParsers, buf: Bytes): Parsed<SignedKey> {
    var (id, rest) :- ReadU32(buf);
    var (key, rest) :- ReadKey16(k.publicKey, rest);
    var (sig, rest) :- ReadBlob16(rest);
    Got(SignedKey(id, key, sig), rest)
  }

  function ReadKyber(k: KeyParsers, buf: Bytes): Parsed<SignedKey> {
    var (id, rest) :- ReadU32(buf);
    var (key, rest) :- ReadKey32(k.kemKey, rest);
    var (sig, rest) :- ReadBlob16(rest);
    Got(SignedKey(id, key, sig), rest)
  }

  function ReadAfterHead(k: KeyParsers, h: Head, buf: Bytes): Parsed<Bundle> {
    var (signed, rest) :- ReadSigned(k, buf);
    var (kyber, rest) :- ReadKyber(k, rest);
    var (identity, rest) :- ReadKey16(k.identityKey, rest);
    var (verifyKey, rest) :- ReadBlob16(rest);
    if |verifyKey| != DELIVERY_TOKEN_VERIFY_KEY_LEN then Fail
    else Got(Bundle(h.registrationId, h.deviceId, h.oneTime, signed.id, signed.key, signed.sig,
                    kyber.id, kyber.key, kyber.sig, identity, verifyKey), rest)
  }

  function ReadFields(k: KeyParsers, buf: Bytes): Parsed<Bundle> {
    var (h, rest) :- ReadHead(k, buf);
    ReadAfterHead(k, h, rest)
  }

  function Whole(p: Parsed<Bundle>): Option<Bundle> {
    if p.Got? && p.rest == [] then Some(p.value) else None
  }

  /** All fields, and then nothing. */
  function Decode(k: KeyParsers, bytes: Bytes): Option<Bundle> { Whole(ReadFields(k, bytes)) }

  /** `decode_bundle` on the mutable cursor. */
  method DecodeBundle(k: KeyParsers, bytes: Bytes) returns (r: Option<Bundle>)
    ensures r == Decode(k, bytes)
  {
    var c := new Cursor(bytes);
    var h := DecodeHead(k, c);
    if h.None? { return None; }
    var signed := DecodeSigned(k, c);
    if signed.None? { return None; }
    var kyber := DecodeKyber(k, c);
    if kyber.None? { return None; }
    var rawIdentity := c.U16Blob();
    if rawIdentity.None? { return None; }
    var identity := k.identityKey(rawIdentity.value);
    if identity.None? { return None; }
    var verifyKey := c.U16Blob();
    if verifyKey.None? || |verifyKey.value| != DELIVERY_TOKEN_VERIFY_KEY_LEN { return None; }
    var empty := c.IsEmpty();
    if !empty { return None; }
    var SignedKey(sid, skey, ssig) := signed.value;
    var SignedKey(kid, kkey, ksig) := kyber.value;
    r := Some(Bundle(h.value.registrationId, h.value.deviceId, h.value.oneTime, sid, skey, ssig,
                     kid, kkey, ksig, identity.value, verifyKey.value));
  }

  method DecodeHead(k: KeyParsers, c: Cursor) returns (r: Option<Head>)
    modifies c
    ensures match ReadHead(k, old(c.buf))
      case Fail => r.None?
      case Got(h, rest) => r == Some(h) && c.buf == rest
  {
    var version := c.U8();
    if version.None? || version.value != BUNDLE_VERSION { return None; }
    var registrationId := c.U32();
    if registrationId.None? { return None; }
    var deviceId := c.U32();
    if deviceId.None? || deviceId.value > 255 || !k.deviceId(deviceId.value) { return None; }
    var flag := c.U8();
    if flag.None? { return None; }
    var oneTime := None;
    if flag.value != 0 {
      var id := c.U32();
      if id.None? { return None; }
      var raw := c.U16Blob();
      if raw.None? { return None; }
      var key := k.publicKey(raw.value);
      if key.None? { return None; }
      oneTime := Some((id.value, key.value));
    }
    r := Some(Head(registrationId.value, deviceId.value, oneTime));
  }

  method DecodeSigned(k: KeyParsers, c: Cursor) returns (r: Option<SignedKey>)
    modifies c
    ensures match ReadSigned(k, old(c.buf))
      case Fail => r.None?
      case Got(key, rest) => r == Some(key) && c.buf == rest
  {
    var id := c.U32();
    if id.None? { return None; }
    var raw := c.U16Blob();
    if raw.None? { return None; }
    var key := k.publicKey(raw.value);
    if key.None? { return None; }
    var sig := c.U16Blob();
    if sig.None? { return None; }
    r := Some(SignedKey(id.value, key.value, sig.value));
  }

  method DecodeKyber(k: KeyParsers, c: Cursor) returns (r: Option<SignedKey>)
    modifies c
    ensures match ReadKyber(k, old(c.buf))
      case Fail => r.None?
      case Got(key, rest) => r == Some(key) && c.buf == rest
  {
    var id := c.U32();
    if id.None? { return None; }
    var raw := c.U32Blob();
    if raw.None? { return None; }
    var key := k.kemKey(raw.value);
    if key.None? { return None; }
    var sig := c.U16Blob();
    if sig.None? { return None; }
    r := Some(SignedKey(id.value, key.value, sig.value));
  }

  // ----- reading what was written -----

  lemma ReadHeadOf(k: KeyParsers, b: Bundle, rest: Bytes)
    requires Publishable(k, b)
    ensures ReadHead(k, LayoutHead(b) + rest) == Got(Head(b.registrationId, b.deviceId, b.oneTime), rest)
  {
    var t5 := Blob16(b.oneTime.value.1) + rest;
    var t4 := U32(b.oneTime.value.0) + t5;
    var t3 := [1] + t4;
    var t2 := U32(b.deviceId) + t3;
    var t1 := U32(b.registrationId) + t2;
    assert LayoutHead(b) + rest == [BUNDLE_VERSION] + t1;
    ReadBytesOf([BUNDLE_VERSION], t1);
    ReadU32Of(b.registrationId, t2);
    ReadU32Of(b.deviceId, t3);
    ReadBytesOf([1], t4);
    ReadU32Of(b.oneTime.value.0, t5);
    ReadBlob16Of(b.oneTime.value.1, rest);
  }

  lemma ReadSignedOf(k: KeyParsers, b: Bundle, rest: Bytes)
    requires Publishable(k, b)
    ensures ReadSigned(k, LayoutSigned(b) + rest) == Got(SignedKey(b.signedId, b.signedKey, b.signedSig), rest)
  {
    var t2 := Blob16(b.signedSig) + rest;
    var t1 := Blob16(b.signedKey) + t2;
    assert LayoutSigned(b) + rest == U32(b.signedId) + t1;
    ReadU32Of(b.signedId, t1);
    ReadBlob16Of(b.signedKey, t2);
    ReadBlob16Of(b.signedSig, rest);
  }

  lemma ReadKyberOf(k: KeyParsers, b: Bundle, rest: Bytes)
    requires Publishable(k, b)
    ensures ReadKyber(k, LayoutKyber(b) + rest) == Got(SignedKey(b.kyberId, b.kyberKey, b.kyberSig), rest)
  {
    var t2 := Blob16(b.kyberSig) + rest;
    var t1 := Blob32(b.kyberKey) + t2;
    assert LayoutKyber(b) + rest == U32(b.kyberId) + t1;
    ReadU32Of(b.kyberId, t1);
    ReadBlob32Of(b.kyberKey, t2);
    ReadBlob16Of(b.kyberSig, rest);
  }

  lemma ReadFieldsOf(k: KeyParsers, b: Bundle, rest: Bytes)
    requires Publishable(k, b)
    ensures ReadFields(k, Layout(b) + rest) == Got(b, rest)
  {
    var t4 := Blob16(b.verifyKey) + rest;
    var t3 := Blob16(b.identity) + t4;
    var t2 := LayoutKyber(b) + t3;
    var t1 := LayoutSigned(b) + t2;
    assert LayoutTail(b) + rest == t3;
    assert Layout(b) + rest == LayoutHead(b) + t1;
    ReadHeadOf(k, b, t1);
    ReadSignedOf(k, b, t2);
    ReadKyberOf(k, b, t3);
    ReadBlob16Of(b.identity, t4);
    ReadBlob16Of(b.verifyKey, rest);
  }

  /** Decoding an encoded bundle gives back every field. */
  lemma BundleRoundTrip(k: KeyParsers, b: Bundle)
    requires Publishable(k, b)
    ensures Decode(k, Layout(b)) == Some(b)
  {
    ReadFieldsOf(k, b, []);
    assert Layout(b) + [] == Layout(b);
  }

  // ----- exactly the encoded bytes, no fewer and no more -----

  lemma ReadHeadExtends(k: KeyParsers, buf: Bytes, more: Bytes)
    requires ReadHead(k, buf).Got?
    ensures ReadHead(k, buf + more) == Got(ReadHead(k, buf).value, ReadHead(k, buf).rest + more)
  {
    ReadU8Extends(buf, more);
    var r1 := ReadU8(buf).rest;
    ReadU32Extends(r1, more);
    var r2 := ReadU32(r1).rest;
    ReadU32Extends(r2, more);
    var r3 := ReadU32(r2).rest;
    ReadU8Extends(r3, more);
    if ReadU8(r3).value != 0 {
      var r4 := ReadU8(r3).rest;
      ReadU32Extends(r4, more);
      ReadBlob16Extends(ReadU32(r4).rest, more);
    }
  }

  lemma ReadSignedExtends(k: KeyParsers, buf: Bytes, more: Bytes)
    requires ReadSigned(k, buf).Got?
    ensures ReadSigned(k, buf + more) == Got(ReadSigned(k, buf).value, ReadSigned(k, buf).rest + more)
  {
    ReadU32Extends(buf, more);
    var r1 := ReadU32(buf).rest;
    ReadBlob16Extends(r1, more);
    ReadBlob16Extends(ReadBlob16(r1).rest, more);
  }

  lemma ReadKyberExtends(k: KeyParsers, buf: Bytes, more: Bytes)
    requires ReadKyber(k, buf).Got?
    ensures ReadKyber(k, buf + more) == Got(ReadKyber(k, buf).value, ReadKyber(k, buf).rest + more)
  {
    ReadU32Extends(buf, more);
    var r1 := ReadU32(buf).rest;
    ReadBlob32Extends(r1, more);
    ReadBlob16Extends(ReadBlob32(r1).rest, more);
  }

  lemma ReadFieldsExtends(k: KeyParsers, buf: Bytes, more: Bytes)
    requires ReadFields(k, buf).Got?
    ensures ReadFields(k, buf + more) == Got(ReadFields(k, buf).value, ReadFields(k, buf).rest + more)
  {
    ReadHeadExtends(k, buf, more);
    var r1 := ReadHead(k, buf).rest;
    ReadSignedExtends(k, r1, more);
    var r2 := ReadSigned(k, r1).rest;
    ReadKyberExtends(k, r2, more);
    var r3 := ReadKyber(k, r2).rest;
    ReadBlob16Extends(r3, more);
    ReadBlob16Extends(ReadBlob16(r3).rest, more);
  }

  lemma ExtensionIsRejected(k: KeyParsers, bytes: Bytes, more: Bytes)
    requires Decode(k, bytes).Some? && more != []
    ensures Decode(k, bytes + more).None?
  {
    ReadFieldsExtends(k, bytes, more);
    WholeExtends(ReadFields(k, bytes), ReadFields(k, bytes + more), more);
  }

  /** A read that took everything leaves exactly what was appended. */
  lemma WholeExtends(p: Parsed<Bundle>, q: Parsed<Bundle>, more: Bytes)
    requires Whole(p).Some? && q == Got(p.value, p.rest + more) && more != []
    ensures Whole(q).None?
  {
    assert p.rest + more == more;
  }

  /** No accepted byte string is a strict prefix of another accepted one. */
  lemma AcceptedBundlesArePrefixFree(k: KeyParsers, bytes: Bytes, more: Bytes)
    requires more != []
    ensures Decode(k, bytes).None? || Decode(k, bytes + more).None?
  {
    if Decode(k, bytes).Some? { ExtensionIsRejected(k, bytes, more); }
  }

  /** Every strict prefix and every strict extension of an encoded bundle is rejected. */
  lemma OnlyWholeBundlesDecode(k: KeyParsers, b: Bundle, other: Bytes)
    requires Publishable(k, b)
    requires other != Layout(b) && (other <= Layout(b) || Layout(b) <= other)
    ensures Decode(k, other).None?
  {
    var whole := Layout(b);
    BundleRoundTrip(k, b);
    if other <= whole {
      assert other + whole[|other|..] == whole;
      AcceptedBundlesArePrefixFree(k, other, whole[|other|..]);
    } else {
      assert whole + other[|whole|..] == other;
      AcceptedBundlesArePrefixFree(k, whole, other[|whole|..]);
    }
  }

  /** Re-encoding is not the identity on accepted bytes: any non-zero one-time flag is read as set. */
  lemma FlagByteIsNotCanonical(k: KeyParsers, b: Bundle, flag: byte)
    requires Publishable(k, b) && flag > 1
    ensures Layout(b)[9] == 1 && Decode(k, Layout(b)[9 := flag]) == Some(b)
  {
    var after := U32(b.oneTime.value.0) + Blob16(b.oneTime.value.1)
      + (LayoutSigned(b) + (LayoutKyber(b) + LayoutTail(b)));
    FlagAt(b, after, flag);
    SameHead(k, b, after, flag);
    BundleRoundTrip(k, b);
    assert ReadFields(k, Layout(b)) == ReadFields(k, Layout(b)[9 := flag]);
  }

  lemma SameHead(k: KeyParsers, b: Bundle, after: Bytes, flag: byte)
    requires Publishable(k, b) && flag > 1
    ensures ReadHead(k, BeforeFlag(b) + ([1] + after)) == ReadHead(k, BeforeFlag(b) + ([flag] + after))
  {
    ReadHeadWithFlag(k, b, [1] + after);
    ReadHeadWithFlag(k, b, [flag] + after);
    ReadBytesOf([1], after);
    ReadBytesOf([flag], after);
  }

  ghost function BeforeFlag(b: Bundle): Bytes requires Sized(b) {
    [BUNDLE_VERSION] + U32(b.registrationId) + U32(b.deviceId)
  }

  lemma FlagAt(b: Bundle, after: Bytes, flag: byte)
    requires Sized(b)
    requires after == U32(b.oneTime.value.0) + Blob16(b.oneTime.value.1)
      + (LayoutSigned(b) + (LayoutKyber(b) + LayoutTail(b)))
    ensures Layout(b) == BeforeFlag(b) + ([1] + after)
    ensures Layout(b)[9 := flag] == BeforeFlag(b) + ([flag] + after)
  {
  }

  lemma ReadHeadWithFlag(k: KeyParsers, b: Bundle, tail: Bytes)
    requires Publishable(k, b)
    ensures ReadHead(k, BeforeFlag(b) + tail)
      == match ReadOneTime(k, tail)
         case Fail => Fail
         case Got(oneTime, rest) => Got(Head(b.registrationId, b.deviceId, oneTime), rest)
  {
    var t2 := U32(b.deviceId) + tail;
    var t1 := U32(b.registrationId) + t2;
    assert BeforeFlag(b) + tail == [BUNDLE_VERSION] + t1;
    ReadBytesOf([BUNDLE_VERSION], t1);
    ReadU32Of(b.registrationId, t2);
    ReadU32Of(b.deviceId, tail);
  }
}
