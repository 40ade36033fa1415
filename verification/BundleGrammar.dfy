/** The byte strings that are bundles, written down field by field, and that the decoder accepts exactly
    these. */
module BundleGrammar {
  import opened Wire
  import opened PreKeyBundle

  /** The fields as they stand on the wire, keys not yet parsed. */
  datatype Raw = Raw(
    registrationId: nat, deviceId: nat,
    flag: byte, oneTimeId: nat, oneTimeKey: Bytes,
    signedId: nat, signedKey: Bytes, signedSig: Bytes,
    kyberId: nat, kyberKey: Bytes, kyberSig: Bytes,
    identity: Bytes, verifyKey: Bytes)
  {
    ghost predicate Sized() {
      && registrationId <= U32_MAX && deviceId <= U32_MAX && oneTimeId <= U32_MAX && |oneTimeKey| <= U16_MAX
      && signedId <= U32_MAX && |signedKey| <= U16_MAX && |signedSig| <= U16_MAX
      && kyberId <= U32_MAX && |kyberKey| <= U32_MAX && |kyberSig| <= U16_MAX
      && |identity| <= U16_MAX && |verifyKey| <= U16_MAX
    }
  }

  // ----- each part, followed by `t` -----

  ghost function OneTimeThen(r: Raw, t: Bytes): Bytes requires r.Sized() {
    if r.flag == 0 then [0] + t else [r.flag] + (U32(r.oneTimeId) + (Blob16(r.oneTimeKey) + t))
  }

  ghost function HeadThen(r: Raw, t: Bytes): Bytes requires r.Sized() {
    [3] + (U32(r.registrationId) + (U32(r.deviceId) + OneTimeThen(r, t)))
  }

  ghost function SignedThen(r: Raw, t: Bytes): Bytes requires r.Sized() {
    U32(r.signedId) + (Blob16(r.signedKey) + (Blob16(r.signedSig) + t))
  }

  ghost function KyberThen(r: Raw, t: Bytes): Bytes requires r.Sized() {
    U32(r.kyberId) + (Blob32(r.kyberKey) + (Blob16(r.kyberSig) + t))
  }

  ghost function TailThen(r: Raw, t: Bytes): Bytes requires r.Sized() { Blob16(r.identity) + (Blob16(r.verifyKey) + t) }

  ghost function Text(r: Raw): Bytes requires r.Sized() {
    HeadThen(r, SignedThen(r, KyberThen(r, TailThen(r, []))))
  }

  // ----- what the fields mean -----

  ghost predicate OneTimeMeans(k: KeyParsers, r: Raw, o: Option<(nat, Bytes)>) {
    if r.flag == 0 then o == None
    else o.Some? && o.value.0 == r.oneTimeId && k.publicKey(r.oneTimeKey) == Some(o.value.1)
  }

  ghost predicate HeadMeans(k: KeyParsers, r: Raw, h: Head) {
    && h.registrationId == r.registrationId && h.deviceId == r.deviceId && r.deviceId <= 255 && k.deviceId(r.deviceId)
    && OneTimeMeans(k, r, h.oneTime)
  }

  ghost predicate SignedMeans(k: KeyParsers, r: Raw, x: SignedKey) {
    x.id == r.signedId && k.publicKey(r.signedKey) == Some(x.key) && x.sig == r.signedSig
  }

  ghost predicate KyberMeans(k: KeyParsers, r: Raw, x: SignedKey) {
    x.id == r.kyberId && k.kemKey(r.kyberKey) == Some(x.key) && x.sig == r.kyberSig
  }

  ghost predicate Means(k: KeyParsers, r: Raw, b: Bundle) {
    && HeadMeans(k, r, Head(b.registrationId, b.deviceId, b.oneTime))
    && SignedMeans(k, r, SignedKey(b.signedId, b.signedKey, b.signedSig))
    && KyberMeans(k, r, SignedKey(b.kyberId, b.kyberKey, b.kyberSig))
    && k.identityKey(r.identity) == Some(b.identity)
    && b.verifyKey == r.verifyKey && |r.verifyKey| == 33
  }

  // ----- every such text is read -----

  lemma OneTimeReads(k: KeyParsers, r: Raw, o: Option<(nat, Bytes)>, t: Bytes)
    requires r.Sized() && OneTimeMeans(k, r, o)
    ensures ReadOneTime(k, OneTimeThen(r, t)) == Got(o, t)
  {
    if r.flag == 0 {
      ReadBytesOf([0], t);
    } else {
      ReadBytesOf([r.flag], U32(r.oneTimeId) + (Blob16(r.oneTimeKey) + t));
      ReadU32Of(r.oneTimeId, Blob16(r.oneTimeKey) + t);
      ReadBlob16Of(r.oneTimeKey, t);
    }
  }

  lemma HeadReads(k: KeyParsers, r: Raw, h: Head, t: Bytes)
    requires r.Sized() && HeadMeans(k, r, h)
    ensures ReadHead(k, HeadThen(r, t)) == Got(h, t)
  {
    var t2 := OneTimeThen(r, t);
    var t1 := U32(r.deviceId) + t2;
    ReadBytesOf([3], U32(r.registrationId) + t1);
    ReadU32Of(r.registrationId, t1);
    ReadU32Of(r.deviceId, t2);
    OneTimeReads(k, r, h.oneTime, t);
  }

  lemma SignedReads(k: KeyParsers, r: Raw, x: SignedKey, t: Bytes)
    requires r.Sized() && SignedMeans(k, r, x)
    ensures ReadSigned(k, SignedThen(r, t)) == Got(x, t)
  {
    ReadU32Of(r.signedId, Blob16(r.signedKey) + (Blob16(r.signedSig) + t));
    ReadBlob16Of(r.signedKey, Blob16(r.signedSig) + t);
    ReadBlob16Of(r.signedSig, t);
  }

  lemma KyberReads(k: KeyParsers, r: Raw, x: SignedKey, t: Bytes)
    requires r.Sized() && KyberMeans(k, r, x)
    ensures ReadKyber(k, KyberThen(r, t)) == Got(x, t)
  {
    ReadU32Of(r.kyberId, Blob32(r.kyberKey) + (Blob16(r.kyberSig) + t));
    ReadBlob32Of(r.kyberKey, Blob16(r.kyberSig) + t);
    ReadBlob16Of(r.kyberSig, t);
  }

  lemma TextDecodes(k: KeyParsers, r: Raw, b: Bundle)
    requires r.Sized() && Means(k, r, b)
    ensures Decode(k, Text(r)) == Some(b)
  {
    var t3 := TailThen(r, []);
    var t2 := KyberThen(r, t3);
    HeadReads(k, r, Head(b.registrationId, b.deviceId, b.oneTime), SignedThen(r, t2));
    SignedReads(k, r, SignedKey(b.signedId, b.signedKey, b.signedSig), t2);
    KyberReads(k, r, SignedKey(b.kyberId, b.kyberKey, b.kyberSig), t3);
    ReadBlob16Of(r.identity, Blob16(r.verifyKey) + []);
    ReadBlob16Of(r.verifyKey, []);
  }

  /** What the writer produces is such a text, with the one-time flag set to one. */
  lemma LayoutIsText(b: Bundle)
    requires Sized(b)
    ensures
      var r := Raw(b.registrationId, b.deviceId, 1, b.oneTime.value.0, b.oneTime.value.1, b.signedId, b.signedKey,
                   b.signedSig, b.kyberId, b.kyberKey, b.kyberSig, b.identity, b.verifyKey);
      r.Sized() && Layout(b) == Text(r)
  {
    var r := Raw(b.registrationId, b.deviceId, 1, b.oneTime.value.0, b.oneTime.value.1, b.signedId, b.signedKey,
                 b.signedSig, b.kyberId, b.kyberKey, b.kyberSig, b.identity, b.verifyKey);
    assert LayoutTail(b) == TailThen(r, []);
    assert LayoutKyber(b) + LayoutTail(b) == KyberThen(r, TailThen(r, []));
    var t := KyberThen(r, TailThen(r, []));
    assert LayoutSigned(b) + t == SignedThen(r, t);
    assert LayoutHead(b) + SignedThen(r, t) == HeadThen(r, SignedThen(r, t));
  }

  // ----- and nothing else is -----

  const BLANK := Raw(0, 0, 0, 0, [], 0, [], [], 0, [], [], [], [])

  lemma OneTimeInverse(k: KeyParsers, buf: Bytes) returns (r: Raw)
    requires ReadOneTime(k, buf).Got?
    ensures r.Sized() && OneTimeMeans(k, r, ReadOneTime(k, buf).value)
    ensures buf == OneTimeThen(r, ReadOneTime(k, buf).rest)
  {
    ReadU8Inverse(buf);
    var flag, t := ReadU8(buf).value, ReadU8(buf).rest;
    r := BLANK.(flag := flag);
    if flag != 0 {
      ReadU32Inverse(t);
      ReadBlob16Inverse(ReadU32(t).rest);
      r := r.(oneTimeId := ReadU32(t).value, oneTimeKey := ReadBlob16(ReadU32(t).rest).value);
    }
  }

  lemma HeadInverse(k: KeyParsers, buf: Bytes) returns (r: Raw)
    requires ReadHead(k, buf).Got?
    ensures r.Sized() && HeadMeans(k, r, ReadHead(k, buf).value) && buf == HeadThen(r, ReadHead(k, buf).rest)
  {
    ReadU8Inverse(buf);
    var t1 := ReadU8(buf).rest;
    ReadU32Inverse(t1);
    var t2 := ReadU32(t1).rest;
    ReadU32Inverse(t2);
    r := OneTimeInverse(k, ReadU32(t2).rest);
    r := r.(registrationId := ReadU32(t1).value, deviceId := ReadU32(t2).value);
  }

  lemma SignedInverse(k: KeyParsers, buf: Bytes, r: Raw) returns (r': Raw)
    requires ReadSigned(k, buf).Got? && r.Sized()
    ensures r' == r.(signedId := r'.signedId, signedKey := r'.signedKey, signedSig := r'.signedSig) && r'.Sized()
    ensures SignedMeans(k, r', ReadSigned(k, buf).value) && buf == SignedThen(r', ReadSigned(k, buf).rest)
  {
    ReadU32Inverse(buf);
    var t1 := ReadU32(buf).rest;
    ReadBlob16Inverse(t1);
    var t2 := ReadBlob16(t1).rest;
    ReadBlob16Inverse(t2);
    r' := r.(signedId := ReadU32(buf).value, signedKey := ReadBlob16(t1).value, signedSig := ReadBlob16(t2).value);
  }

  lemma KyberInverse(k: KeyParsers, buf: Bytes, r: Raw) returns (r': Raw)
    requires ReadKyber(k, buf).Got? && r.Sized()
    ensures r' == r.(kyberId := r'.kyberId, kyberKey := r'.kyberKey, kyberSig := r'.kyberSig) && r'.Sized()
    ensures KyberMeans(k, r', ReadKyber(k, buf).value) && buf == KyberThen(r', ReadKyber(k, buf).rest)
  {
    ReadU32Inverse(buf);
    var t1 := ReadU32(buf).rest;
    ReadBlob32Inverse(t1);
    var t2 := ReadBlob32(t1).rest;
    ReadBlob16Inverse(t2);
    r' := r.(kyberId := ReadU32(buf).value, kyberKey := ReadBlob32(t1).value, kyberSig := ReadBlob16(t2).value);
  }

  /** The parts a decoded byte string falls into. */
  lemma DecodeParts(k: KeyParsers, bytes: Bytes)
    requires Decode(k, bytes).Some?
    ensures
      var h := ReadHead(k, bytes);
      && h.Got? && var s := ReadSigned(k, h.rest);
      && s.Got? && var q := ReadKyber(k, s.rest);
      && q.Got? && var i := ReadBlob16(q.rest);
      && i.Got? && var v := ReadBlob16(i.rest);
      && v.Got? && v.rest == [] && |v.value| == 33
      && var b := Decode(k, bytes).value;
      && h.value == Head(b.registrationId, b.deviceId, b.oneTime)
      && s.value == SignedKey(b.signedId, b.signedKey, b.signedSig)
      && q.value == SignedKey(b.kyberId, b.kyberKey, b.kyberSig)
      && k.identityKey(i.value) == Some(b.identity) && v.value == b.verifyKey
  {
  }

  lemma DecodedIsText(k: KeyParsers, bytes: Bytes) returns (r: Raw)
    requires Decode(k, bytes).Some?
    ensures r.Sized() && Means(k, r, Decode(k, bytes).value) && bytes == Text(r)
  {
    DecodeParts(k, bytes);
    r := HeadInverse(k, bytes);
    var t1 := ReadHead(k, bytes).rest;
    r := SignedInverse(k, t1, r);
    var t2 := ReadSigned(k, t1).rest;
    r := KyberInverse(k, t2, r);
    var t3 := ReadKyber(k, t2).rest;
    ReadBlob16Inverse(t3);
    var t4 := ReadBlob16(t3).rest;
    ReadBlob16Inverse(t4);
    r := r.(identity := ReadBlob16(t3).value, verifyKey := ReadBlob16(t4).value);
    assert t3 == TailThen(r, []);
  }

  /** The decoder accepts exactly the texts of the grammar: version three, a device id in range, an
      optional one-time key behind any non-zero flag, every key parsed, a 33-byte verify key, nothing
      after it. */
  lemma DecodeIff(k: KeyParsers, bytes: Bytes, b: Bundle)
    ensures Decode(k, bytes) == Some(b) <==> exists r: Raw :: r.Sized() && Means(k, r, b) && bytes == Text(r)
  {
    if Decode(k, bytes) == Some(b) {
      var r := DecodedIsText(k, bytes);
    }
    if r: Raw :| r.Sized() && Means(k, r, b) && bytes == Text(r) {
      TextDecodes(k, r, b);
    }
  }
}
