/** The byte strings that are snapshots, section by section, and that the loader accepts exactly these. */
module SnapshotGrammar {
  import opened Wire
  import opened DeviceStore
  import opened Snapshot

  // ----- readers and the texts they decide -----

  /** `read` succeeds exactly on a non-empty text of what it returns, followed by anything. */
  ghost predicate Shapes<T(!new)>(read: Bytes -> Parsed<T>, text: (Bytes, T) -> bool) {
    && (forall buf :: read(buf).Got? ==> HasText(text, buf, read(buf).value, read(buf).rest))
    && (forall t, x :: text(t, x) ==> Encodes(read, t, x))
  }

  ghost predicate HasText<T(!new)>(text: (Bytes, T) -> bool, buf: Bytes, x: T, rest: Bytes) {
    exists t :: text(t, x) && buf == t + rest
  }

  /** A count and that many element texts. */
  ghost predicate SectionText<T(!new)>(text: (Bytes, T) -> bool, t: Bytes, xs: seq<T>) {
    exists ts :: AreTexts(text, ts, xs) && |ts| <= U32_MAX && t == Section(ts)
  }

  ghost predicate AreTexts<T(!new)>(text: (Bytes, T) -> bool, ts: seq<Bytes>, xs: seq<T>) {
    |ts| == |xs| && forall i :: 0 <= i < |ts| ==> text(ts[i], xs[i])
  }

  lemma {:induction false} ManyInverse<T(!new)>(
      read: Bytes -> Parsed<T>, text: (Bytes, T) -> bool, n: nat, buf: Bytes) returns (ts: seq<Bytes>)
    requires Shapes(read, text) && Many(read, n, buf).Got?
    ensures |ts| == n && AreTexts(text, ts, Many(read, n, buf).value)
    ensures buf == Flatten(ts) + Many(read, n, buf).rest
    decreases n
  {
    if n == 0 {
      ts := [];
    } else {
      var x, rest := read(buf).value, read(buf).rest;
      assert HasText(text, buf, x, rest);
      var t :| text(t, x) && buf == t + rest;
      var more := ManyInverse(read, text, n - 1, rest);
      ts := [t] + more;
      FlattenHead(ts);
      assert ts[1..] == more && ts[0] == t;
      Assoc(t, Flatten(more), Many(read, n, buf).rest);
    }
  }

  /** A section is read exactly from its text. */
  lemma SectionIff<T(!new)>(
      read: Bytes -> Parsed<T>, text: (Bytes, T) -> bool, buf: Bytes, xs: seq<T>, rest: Bytes)
    requires Shapes(read, text)
    ensures ReadSection(read, buf) == Got(xs, rest) <==> exists t :: SectionText(text, t, xs) && buf == t + rest
  {
    if ReadSection(read, buf) == Got(xs, rest) {
      ReadU32Inverse(buf);
      var ts := ManyInverse(read, text, ReadCount(buf).value, ReadCount(buf).rest);
      Assoc(U32(|ts|), Flatten(ts), rest);
      assert SectionText(text, Section(ts), xs) && buf == Section(ts) + rest;
    }
    if t :| SectionText(text, t, xs) && buf == t + rest {
      var ts :| AreTexts(text, ts, xs) && |ts| <= U32_MAX && t == Section(ts);
      SectionOf(read, xs, ts, rest);
    }
  }

  // ----- elements -----

  ghost predicate PeerText(t: Bytes, x: Bytes) { |x| <= U16_MAX && t == Blob16(x) }

  ghost predicate KeyText(parse: Bytes -> Option<Bytes>, t: Bytes, e: KeyEntry) {
    exists raw: Bytes :: |raw| <= U32_MAX && e.0 <= U32_MAX && parse(raw) == Some(e.1) && t == U32(e.0) + Blob32(raw)
  }

  ghost predicate SessionText(t: Bytes, e: SessionEntry) {
    |e.peer| <= U16_MAX && |e.record| <= U32_MAX && t == Blob16(e.peer) + Blob32(e.record)
  }

  ghost predicate SenderText(parse: Bytes -> Option<Bytes>, t: Bytes, e: SenderEntry) {
    exists raw: Bytes ::
      && |e.sender| <= U16_MAX && |e.dist| == 16 && |raw| <= U32_MAX && parse(raw) == Some(e.record)
      && t == Blob16(e.sender) + (e.dist + Blob32(raw))
  }

  lemma PeersShape()
    ensures Shapes(PeerReader(), (t, x) => PeerText(t, x))
  {
    forall buf | PeerReader()(buf).Got?
      ensures HasText((t, x) => PeerText(t, x), buf, PeerReader()(buf).value, PeerReader()(buf).rest)
    {
      ReadBlob16Inverse(buf);
      assert PeerText(Blob16(ReadBlob16(buf).value), ReadBlob16(buf).value);
    }
    forall t, x | PeerText(t, x) ensures Encodes(PeerReader(), t, x) { PeerEncodes(x); }
  }

  lemma KeyInverse(parse: Bytes -> Option<Bytes>, buf: Bytes) returns (t: Bytes)
    requires ReadKeyEntry(parse, buf).Got?
    ensures KeyText(parse, t, ReadKeyEntry(parse, buf).value) && buf == t + ReadKeyEntry(parse, buf).rest
  {
    ReadU32Inverse(buf);
    var rest := ReadU32(buf).rest;
    ReadBlob32Inverse(rest);
    t := U32(ReadU32(buf).value) + Blob32(ReadBlob32(rest).value);
    Assoc(U32(ReadU32(buf).value), Blob32(ReadBlob32(rest).value), ReadBlob32(rest).rest);
  }

  lemma KeyReads(parse: Bytes -> Option<Bytes>, t: Bytes, e: KeyEntry)
    requires KeyText(parse, t, e)
    ensures Encodes(KeyReader(parse), t, e)
  {
    var raw: Bytes :| |raw| <= U32_MAX && e.0 <= U32_MAX && parse(raw) == Some(e.1) && t == U32(e.0) + Blob32(raw);
    forall rest ensures KeyReader(parse)(t + rest) == Got(e, rest) { RawKeyReads(parse, e, raw, rest); }
  }

  lemma RawKeyReads(parse: Bytes -> Option<Bytes>, e: KeyEntry, raw: Bytes, rest: Bytes)
    requires |raw| <= U32_MAX && e.0 <= U32_MAX && parse(raw) == Some(e.1)
    ensures ReadKeyEntry(parse, (U32(e.0) + Blob32(raw)) + rest) == Got(e, rest)
  {
    Assoc(U32(e.0), Blob32(raw), rest);
    ReadU32Of(e.0, Blob32(raw) + rest);
    ReadBlob32Of(raw, rest);
  }

  lemma KeysShape(parse: Bytes -> Option<Bytes>)
    ensures Shapes(KeyReader(parse), (t, e) => KeyText(parse, t, e))
  {
    forall buf | KeyReader(parse)(buf).Got?
      ensures HasText((t, e) => KeyText(parse, t, e), buf, KeyReader(parse)(buf).value, KeyReader(parse)(buf).rest)
    {
      var t := KeyInverse(parse, buf);
    }
    forall t, e | KeyText(parse, t, e) ensures Encodes(KeyReader(parse), t, e) { KeyReads(parse, t, e); }
  }

  lemma SessionInverse(buf: Bytes)
    requires ReadSessionEntry(buf).Got?
    ensures
      var e := ReadSessionEntry(buf).value;
      && |e.peer| <= U16_MAX && |e.record| <= U32_MAX
      && buf == (Blob16(e.peer) + Blob32(e.record)) + ReadSessionEntry(buf).rest
  {
    ReadBlob16Inverse(buf);
    var rest := ReadBlob16(buf).rest;
    ReadBlob32Inverse(rest);
    Assoc(Blob16(ReadBlob16(buf).value), Blob32(ReadBlob32(rest).value), ReadBlob32(rest).rest);
  }

  lemma SessionsShape()
    ensures Shapes(SessionReader(), (t, e) => SessionText(t, e))
  {
    forall buf | SessionReader()(buf).Got?
      ensures HasText((t, e) => SessionText(t, e), buf, SessionReader()(buf).value, SessionReader()(buf).rest)
    {
      SessionInverse(buf);
      var e := ReadSessionEntry(buf).value;
      assert SessionText(Blob16(e.peer) + Blob32(e.record), e);
    }
    forall t, e | SessionText(t, e) ensures Encodes(SessionReader(), t, e) { SessionEncodes(e); }
  }

  lemma SenderInverse(parse: Bytes -> Option<Bytes>, buf: Bytes) returns (t: Bytes)
    requires ReadSenderEntry(parse, buf).Got?
    ensures SenderText(parse, t, ReadSenderEntry(parse, buf).value) && buf == t + ReadSenderEntry(parse, buf).rest
  {
    ReadBlob16Inverse(buf);
    var t1 := ReadBlob16(buf).rest;
    ReadBytesInverse(t1, 16);
    var t2 := ReadBytes(t1, 16).rest;
    ReadBlob32Inverse(t2);
    var a, b, c := Blob16(ReadBlob16(buf).value), ReadBytes(t1, 16).value, Blob32(ReadBlob32(t2).value);
    t := a + (b + c);
    Assoc(b, c, ReadBlob32(t2).rest);
    Assoc(a, b + c, ReadBlob32(t2).rest);
  }

  lemma SenderReads(parse: Bytes -> Option<Bytes>, t: Bytes, e: SenderEntry)
    requires SenderText(parse, t, e)
    ensures Encodes(SenderReader(parse), t, e)
  {
    var raw: Bytes :|
      && |e.sender| <= U16_MAX && |e.dist| == 16 && |raw| <= U32_MAX && parse(raw) == Some(e.record)
      && t == Blob16(e.sender) + (e.dist + Blob32(raw));
    forall rest ensures SenderReader(parse)(t + rest) == Got(e, rest) { RawSenderReads(parse, e, raw, rest); }
  }

  lemma RawSenderReads(parse: Bytes -> Option<Bytes>, e: SenderEntry, raw: Bytes, rest: Bytes)
    requires |e.sender| <= U16_MAX && |e.dist| == 16 && |raw| <= U32_MAX && parse(raw) == Some(e.record)
    ensures ReadSenderEntry(parse, (Blob16(e.sender) + (e.dist + Blob32(raw))) + rest) == Got(e, rest)
  {
    var t2 := Blob32(raw) + rest;
    Assoc(Blob16(e.sender), e.dist + Blob32(raw), rest);
    Assoc(e.dist, Blob32(raw), rest);
    ReadBlob16Of(e.sender, e.dist + t2);
    ReadBytesOf(e.dist, t2);
    ReadBlob32Of(raw, rest);
  }

  lemma SendersShape(parse: Bytes -> Option<Bytes>)
    ensures Shapes(SenderReader(parse), (t, e) => SenderText(parse, t, e))
  {
    forall buf | SenderReader(parse)(buf).Got?
      ensures
        var got := SenderReader(parse)(buf);
        HasText((t, e) => SenderText(parse, t, e), buf, got.value, got.rest)
    {
      var t := SenderInverse(parse, buf);
    }
    forall t, e | SenderText(parse, t, e) ensures Encodes(SenderReader(parse), t, e) { SenderReads(parse, t, e); }
  }

  // ----- the sections of a snapshot -----

  ghost predicate PeersAt(buf: Bytes, xs: seq<Bytes>, rest: Bytes) {
    exists t :: SectionText((u, x) => PeerText(u, x), t, xs) && buf == t + rest
  }

  ghost predicate KeysAt(parse: Bytes -> Option<Bytes>, buf: Bytes, xs: seq<KeyEntry>, rest: Bytes) {
    exists t :: SectionText((u, e) => KeyText(parse, u, e), t, xs) && buf == t + rest
  }

  ghost predicate SessionsAt(buf: Bytes, xs: seq<SessionEntry>, rest: Bytes) {
    exists t :: SectionText((u, e) => SessionText(u, e), t, xs) && buf == t + rest
  }

  ghost predicate SendersAt(parse: Bytes -> Option<Bytes>, buf: Bytes, xs: seq<SenderEntry>, rest: Bytes) {
    exists t :: SectionText((u, e) => SenderText(parse, u, e), t, xs) && buf == t + rest
  }

  lemma PeersIff(buf: Bytes, xs: seq<Bytes>, rest: Bytes)
    ensures ReadSection(PeerReader(), buf) == Got(xs, rest) <==> PeersAt(buf, xs, rest)
  {
    PeersShape();
    SectionIff(PeerReader(), (u, x) => PeerText(u, x), buf, xs, rest);
  }

  lemma KeysIff(parse: Bytes -> Option<Bytes>, buf: Bytes, xs: seq<KeyEntry>, rest: Bytes)
    ensures ReadSection(KeyReader(parse), buf) == Got(xs, rest) <==> KeysAt(parse, buf, xs, rest)
  {
    KeysShape(parse);
    SectionIff(KeyReader(parse), (u, e) => KeyText(parse, u, e), buf, xs, rest);
  }

  lemma SessionsIff(buf: Bytes, xs: seq<SessionEntry>, rest: Bytes)
    ensures ReadSection(SessionReader(), buf) == Got(xs, rest) <==> SessionsAt(buf, xs, rest)
  {
    SessionsShape();
    SectionIff(SessionReader(), (u, e) => SessionText(u, e), buf, xs, rest);
  }

  lemma SendersIff(parse: Bytes -> Option<Bytes>, buf: Bytes, xs: seq<SenderEntry>, rest: Bytes)
    ensures ReadSection(SenderReader(parse), buf) == Got(xs, rest) <==> SendersAt(parse, buf, xs, rest)
  {
    SendersShape(parse);
    SectionIff(SenderReader(parse), (u, e) => SenderText(parse, u, e), buf, xs, rest);
  }

  // ----- the whole snapshot -----

  /** An identity pair that parses, the registration id and the three counters. */
  ghost predicate HeaderAt(p: Parsers, buf: Bytes, h: HeaderFields, rest: Bytes) {
    && h.registrationId <= U32_MAX && h.preId <= U32_MAX && h.signedId <= U32_MAX && h.kyberId <= U32_MAX
    && exists raw: Bytes ::
         && |raw| <= U32_MAX && p.identityPair(raw) == Some(h.identity)
         && buf == Blob32(raw) + (U32(h.registrationId) + (U32(h.preId) + (U32(h.signedId) + (U32(h.kyberId) + rest))))
  }

  lemma HeaderReads(p: Parsers, buf: Bytes, h: HeaderFields, rest: Bytes)
    requires HeaderAt(p, buf, h, rest)
    ensures ReadHeader(p, buf) == Got(h, rest)
  {
    var raw: Bytes :|
      && |raw| <= U32_MAX && p.identityPair(raw) == Some(h.identity)
      && buf == Blob32(raw) + (U32(h.registrationId) + (U32(h.preId) + (U32(h.signedId) + (U32(h.kyberId) + rest))));
    var t4 := U32(h.kyberId) + rest;
    var t3 := U32(h.signedId) + t4;
    var t2 := U32(h.preId) + t3;
    ReadBlob32Of(raw, U32(h.registrationId) + t2);
    ReadU32Of(h.registrationId, t2);
    ReadU32Of(h.preId, t3);
    ReadU32Of(h.signedId, t4);
    ReadU32Of(h.kyberId, rest);
  }

  lemma HeaderInverse(p: Parsers, buf: Bytes)
    requires ReadHeader(p, buf).Got?
    ensures HeaderAt(p, buf, ReadHeader(p, buf).value, ReadHeader(p, buf).rest)
  {
    ReadBlob32Inverse(buf);
    var t1 := ReadBlob32(buf).rest;
    ReadU32Inverse(t1);
    var t2 := ReadU32(t1).rest;
    ReadU32Inverse(t2);
    var t3 := ReadU32(t2).rest;
    ReadU32Inverse(t3);
    ReadU32Inverse(ReadU32(t3).rest);
  }

  /** Header, peers, the three key lists and the session records, one after the other. */
  ghost predicate BodyAt(p: Parsers, buf: Bytes, body: Body, rest: Bytes) {
    exists b1, b2, b3, b4, b5 ::
      && HeaderAt(p, buf, body.header, b1) && PeersAt(b1, body.peers, b2)
      && KeysAt(p.preKey, b2, body.keys.preKeys, b3) && KeysAt(p.signedPreKey, b3, body.keys.signedPreKeys, b4)
      && KeysAt(p.kyberPreKey, b4, body.keys.kyberPreKeys, b5) && SessionsAt(b5, body.sessions, rest)
  }

  lemma BodyReads(p: Parsers, buf: Bytes, body: Body, rest: Bytes)
    requires BodyAt(p, buf, body, rest)
    ensures ReadBody(p, buf) == Got(body, rest)
  {
    var b1, b2, b3, b4, b5 :|
      && HeaderAt(p, buf, body.header, b1) && PeersAt(b1, body.peers, b2)
      && KeysAt(p.preKey, b2, body.keys.preKeys, b3) && KeysAt(p.signedPreKey, b3, body.keys.signedPreKeys, b4)
      && KeysAt(p.kyberPreKey, b4, body.keys.kyberPreKeys, b5) && SessionsAt(b5, body.sessions, rest);
    HeaderReads(p, buf, body.header, b1);
    PeersIff(b1, body.peers, b2);
    SessionsIff(b5, body.sessions, rest);
    KeyListsRead(p, b2, b3, b4, b5, body.keys);
    BodyInParts(p, buf, b1, b2, b5, rest, body);
  }

  lemma KeyListsRead(p: Parsers, b2: Bytes, b3: Bytes, b4: Bytes, b5: Bytes, keys: KeyLists)
    requires KeysAt(p.preKey, b2, keys.preKeys, b3) && KeysAt(p.signedPreKey, b3, keys.signedPreKeys, b4)
    requires KeysAt(p.kyberPreKey, b4, keys.kyberPreKeys, b5)
    ensures ReadKeyLists(p, b2) == Got(keys, b5)
  {
    KeysIff(p.preKey, b2, keys.preKeys, b3);
    KeysIff(p.signedPreKey, b3, keys.signedPreKeys, b4);
    KeysIff(p.kyberPreKey, b4, keys.kyberPreKeys, b5);
    KeyListsInParts(p, b2, b3, b4, b5, keys);
  }

  lemma BodyInverse(p: Parsers, buf: Bytes)
    requires ReadBody(p, buf).Got?
    ensures BodyAt(p, buf, ReadBody(p, buf).value, ReadBody(p, buf).rest)
  {
    var body, rest := ReadBody(p, buf).value, ReadBody(p, buf).rest;
    HeaderInverse(p, buf);
    var b1 := ReadHeader(p, buf).rest;
    var b2 := ReadSection(PeerReader(), b1).rest;
    PeersIff(b1, body.peers, b2);
    var b3 := ReadSection(KeyReader(p.preKey), b2).rest;
    KeysIff(p.preKey, b2, body.keys.preKeys, b3);
    var b4 := ReadSection(KeyReader(p.signedPreKey), b3).rest;
    KeysIff(p.signedPreKey, b3, body.keys.signedPreKeys, b4);
    var b5 := ReadSection(KeyReader(p.kyberPreKey), b4).rest;
    KeysIff(p.kyberPreKey, b4, body.keys.kyberPreKeys, b5);
    SessionsIff(b5, body.sessions, rest);
  }

  /** From version two a certificate, empty for none; nothing at all also stands for none. */
  ghost predicate CertificateAt(p: Parsers, version: byte, buf: Bytes, certificate: Option<Bytes>, rest: Bytes) {
    if version >= 2 && buf != [] then
      exists raw: Bytes ::
        && |raw| <= U32_MAX && buf == Blob32(raw) + rest
        && (if raw == [] then certificate == None
            else certificate.Some? && p.certificate(raw) == certificate)
    else certificate == None && rest == buf
  }

  lemma CertificateIff(p: Parsers, version: byte, buf: Bytes, certificate: Option<Bytes>, rest: Bytes)
    ensures ReadCertificate(p, version, buf) == Got(certificate, rest)
       <==> CertificateAt(p, version, buf, certificate, rest)
  {
    if version >= 2 && buf != [] {
      if ReadCertificate(p, version, buf) == Got(certificate, rest) { ReadBlob32Inverse(buf); }
      if CertificateAt(p, version, buf, certificate, rest) {
        var raw: Bytes :|
          && |raw| <= U32_MAX && buf == Blob32(raw) + rest
          && (if raw == [] then certificate == None else certificate.Some? && p.certificate(raw) == certificate);
        ReadBlob32Of(raw, rest);
      }
    }
  }

  /** From version three the sender keys; whatever follows them is not looked at. */
  ghost predicate TailAt(p: Parsers, version: byte, buf: Bytes, tail: Tail) {
    exists rest ::
      && CertificateAt(p, version, buf, tail.certificate, rest)
      && (if version >= 3 && rest != [] then exists end :: SendersAt(p.senderKey, rest, tail.senders, end)
          else tail.senders == [])
  }

  lemma TailIff(p: Parsers, version: byte, buf: Bytes, tail: Tail)
    ensures (exists end :: ReadTail(p, version, buf) == Got(tail, end)) <==> TailAt(p, version, buf, tail)
  {
    if end :| ReadTail(p, version, buf) == Got(tail, end) {
      var rest := ReadCertificate(p, version, buf).rest;
      CertificateIff(p, version, buf, tail.certificate, rest);
      SendersIff(p.senderKey, rest, tail.senders, end);
    }
    if TailAt(p, version, buf, tail) {
      var rest :|
        && CertificateAt(p, version, buf, tail.certificate, rest)
        && (if version >= 3 && rest != [] then exists end :: SendersAt(p.senderKey, rest, tail.senders, end)
            else tail.senders == []);
      CertificateIff(p, version, buf, tail.certificate, rest);
      if version >= 3 && rest != [] {
        var end :| SendersAt(p.senderKey, rest, tail.senders, end);
        SendersIff(p.senderKey, rest, tail.senders, end);
        assert ReadTail(p, version, buf) == Got(tail, end);
      } else {
        assert ReadTail(p, version, buf) == Got(tail, rest);
      }
    }
  }

  ghost predicate IsSnapshot(p: Parsers, bytes: Bytes, version: byte, body: Body, tail: Tail) {
    && 1 <= version <= 3
    && exists buf, rest :: bytes == [version] + buf && BodyAt(p, buf, body, rest) && TailAt(p, version, rest, tail)
  }

  /** The loader accepts exactly the snapshots of versions one to three: any key, identity, certificate or
      sender key that does not parse, any count past the end and any truncation refuses the whole blob;
      session records alone may be damaged. */
  lemma LoadIff(p: Parsers, bytes: Bytes, s: Store)
    ensures Load(p, bytes) == Some(s) <==>
      exists version, body, tail :: IsSnapshot(p, bytes, version, body, tail) && s == Assemble(p, body, tail)
  {
    if Load(p, bytes) == Some(s) {
      ReadU8Inverse(bytes);
      var version, buf := ReadU8(bytes).value, ReadU8(bytes).rest;
      BodyInverse(p, buf);
      var body, rest := ReadBody(p, buf).value, ReadBody(p, buf).rest;
      var tail := ReadTail(p, version, rest).value;
      assert ReadTail(p, version, rest) == Got(tail, ReadTail(p, version, rest).rest);
      TailIff(p, version, rest, tail);
      assert IsSnapshot(p, bytes, version, body, tail);
    }
    if version, body, tail :| IsSnapshot(p, bytes, version, body, tail) && s == Assemble(p, body, tail) {
      SnapshotLoads(p, bytes, version, body, tail);
    }
  }

  lemma SnapshotLoads(p: Parsers, bytes: Bytes, version: byte, body: Body, tail: Tail)
    requires IsSnapshot(p, bytes, version, body, tail)
    ensures Load(p, bytes) == Some(Assemble(p, body, tail))
  {
    var buf, rest :| bytes == [version] + buf && BodyAt(p, buf, body, rest) && TailAt(p, version, rest, tail);
    var end := TailReads(p, version, rest, tail);
    VersionByte(version, buf);
    BodyReads(p, buf, body, rest);
    LoadInParts(p, bytes, version, buf, body, rest, tail, end);
  }

  lemma VersionByte(version: byte, buf: Bytes)
    ensures ReadU8([version] + buf) == Got(version, buf)
  {
    ReadBytesOf([version], buf);
  }

  lemma TailReads(p: Parsers, version: byte, buf: Bytes, tail: Tail) returns (end: Bytes)
    requires TailAt(p, version, buf, tail)
    ensures ReadTail(p, version, buf) == Got(tail, end)
  {
    TailIff(p, version, buf, tail);
    end :| ReadTail(p, version, buf) == Got(tail, end);
  }

  lemma LoadInParts(
      p: Parsers, bytes: Bytes, version: byte, buf: Bytes, body: Body, rest: Bytes, tail: Tail, end: Bytes)
    requires 1 <= version <= 3 && ReadU8(bytes) == Got(version, buf)
    requires ReadBody(p, buf) == Got(body, rest) && ReadTail(p, version, rest) == Got(tail, end)
    ensures Load(p, bytes) == Some(Assemble(p, body, tail))
  {
    VersionInParts(p, version, buf, body, rest, tail, end);
  }

  lemma VersionInParts(p: Parsers, version: byte, buf: Bytes, body: Body, rest: Bytes, tail: Tail, end: Bytes)
    requires ReadBody(p, buf) == Got(body, rest) && ReadTail(p, version, rest) == Got(tail, end)
    ensures LoadVersion(p, version, buf) == Some(Assemble(p, body, tail))
  {
  }
}
