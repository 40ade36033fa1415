/** The versioned store snapshot: `serialize` and `from_serialized`. */
module Snapshot {
  import opened Wire
  import opened DeviceStore

  const STORE_VERSION: byte := 3

  // ----- counted sections -----

  function Flatten(pieces: seq<Bytes>): Bytes {
    if pieces == [] then [] else Flatten(pieces[..|pieces| - 1]) + pieces[|pieces| - 1]
  }

  function Section(pieces: seq<Bytes>): Bytes requires |pieces| <= U32_MAX { U32(|pieces|) + Flatten(pieces) }

  function Many<T>(read: Bytes -> Parsed<T>, n: nat, buf: Bytes): Parsed<seq<T>> {
    if n == 0 then Got([], buf)
    else
      var (x, rest) :- read(buf);
      var (xs, rest) :- Many(read, n - 1, rest);
      Got([x] + xs, rest)
  }

  function ReadSection<T>(read: Bytes -> Parsed<T>, buf: Bytes): Parsed<seq<T>> {
    var (n, rest) :- ReadCount(buf);
    Many(read, n, rest)
  }

  /** `piece` is a non-empty encoding that `read` turns back into `x`, whatever follows. */
  ghost predicate Encodes<T(!new)>(read: Bytes -> Parsed<T>, piece: Bytes, x: T) {
    piece != [] && forall rest :: read(piece + rest) == Got(x, rest)
  }

  lemma {:induction false} FlattenHead(pieces: seq<Bytes>)
    requires pieces != []
    ensures Flatten(pieces) == pieces[0] + Flatten(pieces[1..])
    decreases |pieces|
  {
    var n := |pieces| - 1;
    if n == 0 {
      assert pieces[..0] == [] && pieces[1..] == [];
    } else {
      var front, middle, last := pieces[..n], pieces[1..n], pieces[n];
      Slices(pieces);
      FlattenHead(front);
      FlattenSnoc(front, last);
      FlattenSnoc(middle, last);
      Assoc(pieces[0], Flatten(middle), last);
    }
  }

  lemma Slices(pieces: seq<Bytes>)
    requires |pieces| > 1
    ensures
      var n := |pieces| - 1;
      && pieces == pieces[..n] + [pieces[n]] && pieces[1..] == pieces[1..n] + [pieces[n]]
      && pieces[..n][0] == pieces[0] && pieces[..n][1..] == pieces[1..n]
  {
  }

  lemma FlattenSnoc(pieces: seq<Bytes>, last: Bytes)
    ensures Flatten(pieces + [last]) == Flatten(pieces) + last
  {
    assert (pieces + [last])[..|pieces|] == pieces;
  }

  lemma Assoc(a: Bytes, b: Bytes, c: Bytes)
    ensures (a + b) + c == a + (b + c)
  {
  }

  lemma {:induction false} FlattenLength(pieces: seq<Bytes>)
    requires forall i :: 0 <= i < |pieces| ==> pieces[i] != []
    ensures |Flatten(pieces)| >= |pieces|
    decreases |pieces|
  {
    if pieces != [] {
      FlattenLength(pieces[..|pieces| - 1]);
    }
  }

  lemma {:induction false} ManyOf<T(!new)>(read: Bytes -> Parsed<T>, xs: seq<T>, pieces: seq<Bytes>, rest: Bytes)
    requires |xs| == |pieces| && forall i :: 0 <= i < |xs| ==> Encodes(read, pieces[i], xs[i])
    ensures Many(read, |xs|, Flatten(pieces) + rest) == Got(xs, rest)
    decreases |xs|
  {
    if xs == [] {
      assert Flatten(pieces) + rest == rest;
    } else {
      FlattenHead(pieces);
      assert Flatten(pieces) + rest == pieces[0] + (Flatten(pieces[1..]) + rest);
      assert Encodes(read, pieces[0], xs[0]);
      ManyOf(read, xs[1..], pieces[1..], rest);
      assert [xs[0]] + xs[1..] == xs;
    }
  }

  /** A section reads back, and its count is never refused: every element takes at least a byte. */
  lemma SectionOf<T(!new)>(read: Bytes -> Parsed<T>, xs: seq<T>, pieces: seq<Bytes>, rest: Bytes)
    requires |xs| == |pieces| <= U32_MAX && forall i :: 0 <= i < |xs| ==> Encodes(read, pieces[i], xs[i])
    ensures ReadSection(read, Section(pieces) + rest) == Got(xs, rest)
  {
    assert forall i :: 0 <= i < |pieces| ==> Encodes(read, pieces[i], xs[i]) ==> pieces[i] != [];
    FlattenLength(pieces);
    assert Section(pieces) + rest == U32(|pieces|) + (Flatten(pieces) + rest);
    ReadCountOf(|pieces|, Flatten(pieces) + rest);
    ManyOf(read, xs, pieces, rest);
  }

  // ----- elements -----

  type KeyEntry = (nat, Bytes)
  datatype SessionEntry = SessionEntry(peer: Bytes, record: Bytes)
  datatype SenderEntry = SenderEntry(sender: Bytes, dist: Bytes, record: Bytes)

  function Lift<T>(o: Option<T>, rest: Bytes): Parsed<T> { if o.None? then Fail else Got(o.value, rest) }

  function PeerReader(): Bytes -> Parsed<Bytes> { buf => ReadBlob16(buf) }

  function ReadKeyEntry(parse: Bytes -> Option<Bytes>, buf: Bytes): Parsed<KeyEntry> {
    var (id, rest) :- ReadU32(buf);
    var (raw, rest) :- ReadBlob32(rest);
    var (record, rest) :- Lift(parse(raw), rest);
    Got((id, record), rest)
  }

  function KeyReader(parse: Bytes -> Option<Bytes>): Bytes -> Parsed<KeyEntry> { buf => ReadKeyEntry(parse, buf) }

  function ReadSessionEntry(buf: Bytes): Parsed<SessionEntry> {
    var (peer, rest) :- ReadBlob16(buf);
    var (raw, rest) :- ReadBlob32(rest);
    Got(SessionEntry(peer, raw), rest)
  }

  function SessionReader(): Bytes -> Parsed<SessionEntry> { buf => ReadSessionEntry(buf) }

  function ReadSenderEntry(parse: Bytes -> Option<Bytes>, buf: Bytes): Parsed<SenderEntry> {
    var (sender, rest) :- ReadBlob16(buf);
    var (dist, rest) :- ReadBytes(rest, DISTRIBUTION_ID_LEN);
    var (raw, rest) :- ReadBlob32(rest);
    var (record, rest) :- Lift(parse(raw), rest);
    Got(SenderEntry(sender, dist, record), rest)
  }

  function SenderReader(parse: Bytes -> Option<Bytes>): Bytes -> Parsed<SenderEntry> {
    buf => ReadSenderEntry(parse, buf)
  }

  function KeyPiece(e: KeyEntry): Bytes requires e.0 <= U32_MAX && |e.1| <= U32_MAX { U32(e.0) + Blob32(e.1) }
  function SessionPiece(e: SessionEntry): Bytes
    requires |e.peer| <= U16_MAX && |e.record| <= U32_MAX
  {
    Blob16(e.peer) + Blob32(e.record)
  }
  function SenderPiece(e: SenderEntry): Bytes
    requires |e.sender| <= U16_MAX && |e.record| <= U32_MAX
  {
    Blob16(e.sender) + e.dist + Blob32(e.record)
  }

  lemma PeerEncodes(peer: Bytes)
    requires |peer| <= U16_MAX
    ensures Encodes(PeerReader(), Blob16(peer), peer)
  {
    forall rest ensures PeerReader()(Blob16(peer) + rest) == Got(peer, rest) { ReadBlob16Of(peer, rest); }
  }

  lemma KeyEncodes(parse: Bytes -> Option<Bytes>, e: KeyEntry)
    requires e.0 <= U32_MAX && |e.1| <= U32_MAX && Canonical(parse, e.1)
    ensures Encodes(KeyReader(parse), KeyPiece(e), e)
  {
    forall rest ensures KeyReader(parse)(KeyPiece(e) + rest) == Got(e, rest) {
      assert KeyPiece(e) + rest == U32(e.0) + (Blob32(e.1) + rest);
      ReadU32Of(e.0, Blob32(e.1) + rest);
      ReadBlob32Of(e.1, rest);
    }
  }

  lemma SessionEncodes(e: SessionEntry)
    requires |e.peer| <= U16_MAX && |e.record| <= U32_MAX
    ensures Encodes(SessionReader(), SessionPiece(e), e)
  {
    forall rest ensures SessionReader()(SessionPiece(e) + rest) == Got(e, rest) {
      assert SessionPiece(e) + rest == Blob16(e.peer) + (Blob32(e.record) + rest);
      ReadBlob16Of(e.peer, Blob32(e.record) + rest);
      ReadBlob32Of(e.record, rest);
    }
  }

  lemma SenderEncodes(parse: Bytes -> Option<Bytes>, e: SenderEntry)
    requires |e.sender| <= U16_MAX && |e.dist| == DISTRIBUTION_ID_LEN
    requires |e.record| <= U32_MAX && Canonical(parse, e.record)
    ensures Encodes(SenderReader(parse), SenderPiece(e), e)
  {
    forall rest ensures SenderReader(parse)(SenderPiece(e) + rest) == Got(e, rest) { SenderEntryOf(parse, e, rest); }
  }

  lemma SenderEntryOf(parse: Bytes -> Option<Bytes>, e: SenderEntry, rest: Bytes)
    requires |e.sender| <= U16_MAX && |e.dist| == DISTRIBUTION_ID_LEN
    requires |e.record| <= U32_MAX && Canonical(parse, e.record)
    ensures ReadSenderEntry(parse, SenderPiece(e) + rest) == Got(e, rest)
  {
    var t2 := Blob32(e.record) + rest;
    var t1 := e.dist + t2;
    assert SenderPiece(e) + rest == Blob16(e.sender) + t1;
    ReadBlob16Of(e.sender, t1);
    ReadBytesOf(e.dist, t2);
    ReadBlob32Of(e.record, rest);
  }

  // ----- what is written -----

  /** An enumeration of a key map, in whatever order the hash map yields it. */
  ghost predicate Enumerates(order: seq<nat>, m: map<nat, Bytes>) {
    Distinct(order) && forall id :: id in order <==> id in m
  }

  function KeyEntries(order: seq<nat>, m: map<nat, Bytes>): (r: seq<KeyEntry>)
    requires forall id :: id in order ==> id in m
    ensures |r| == |order| && forall i :: 0 <= i < |r| ==> r[i] == (order[i], m[order[i]])
  {
    seq(|order|, i requires 0 <= i < |order| => (order[i], m[order[i]]))
  }

  function SessionEntries(peers: seq<Bytes>, sessions: map<string, Bytes>): seq<SessionEntry> {
    if peers == [] then []
    else
      var front := SessionEntries(peers[..|peers| - 1], sessions);
      var peer := peers[|peers| - 1];
      if Address(peer) in sessions && sessions[Address(peer)] != []
      then front + [SessionEntry(peer, sessions[Address(peer)])]
      else front
  }

  function SenderEntries(index: seq<(Bytes, Bytes)>, stored: map<(string, Bytes), Bytes>): seq<SenderEntry> {
    if index == [] then []
    else
      var front := SenderEntries(index[..|index| - 1], stored);
      var e := index[|index| - 1];
      var k := (Address(e.0), e.1);
      if k in stored && stored[k] != [] then front + [SenderEntry(e.0, e.1, stored[k])] else front
  }

  /** Counts and records fit their u32 prefixes. */
  ghost predicate Fits(s: Store) {
    && |s.inner.identity| <= U32_MAX
    && |s.peers| <= U32_MAX && |s.senderKeyIndex| <= U32_MAX
    && |s.inner.preKeys| <= U32_MAX && |s.inner.signedPreKeys| <= U32_MAX && |s.inner.kyberPreKeys| <= U32_MAX
    && (forall id :: id in s.inner.preKeys ==> |s.inner.preKeys[id]| <= U32_MAX)
    && (forall id :: id in s.inner.signedPreKeys ==> |s.inner.signedPreKeys[id]| <= U32_MAX)
    && (forall id :: id in s.inner.kyberPreKeys ==> |s.inner.kyberPreKeys[id]| <= U32_MAX)
    && (forall a :: a in s.inner.sessions ==> |s.inner.sessions[a]| <= U32_MAX)
    && (forall k :: k in s.inner.senderKeys ==> |s.inner.senderKeys[k]| <= U32_MAX)
    && (s.certificate.Some? ==> |s.certificate.value| <= U32_MAX)
  }

  datatype Orders = Orders(preKeys: seq<nat>, signedPreKeys: seq<nat>, kyberPreKeys: seq<nat>)

  /** A store that a run of the public methods can reach, with counts and records in u32. */
  ghost predicate Serializable(p: Parsers, s: Store, o: Orders) {
    && Inv(p, s) && Fits(s)
    && Enumerates(o.preKeys, s.inner.preKeys) && |o.preKeys| <= U32_MAX
    && Enumerates(o.signedPreKeys, s.inner.signedPreKeys) && |o.signedPreKeys| <= U32_MAX
    && Enumerates(o.kyberPreKeys, s.inner.kyberPreKeys) && |o.kyberPreKeys| <= U32_MAX
  }

  function PeerPieces(peers: seq<Bytes>): seq<Bytes>
    requires forall q :: q in peers ==> |q| <= U16_MAX
  {
    seq(|peers|, i requires 0 <= i < |peers| => Blob16(peers[i]))
  }

  function KeyPieces(order: seq<nat>, m: map<nat, Bytes>): seq<Bytes>
    requires forall id :: id in order ==> id in m && id <= U32_MAX && |m[id]| <= U32_MAX
  {
    seq(|order|, i requires 0 <= i < |order| => KeyPiece((order[i], m[order[i]])))
  }

  function SessionPieces(es: seq<SessionEntry>): seq<Bytes>
    requires forall e :: e in es ==> |e.peer| <= U16_MAX && |e.record| <= U32_MAX
  {
    seq(|es|, i requires 0 <= i < |es| => SessionPiece(es[i]))
  }

  function SenderPieces(es: seq<SenderEntry>): seq<Bytes>
    requires forall e :: e in es ==> |e.sender| <= U16_MAX && |e.record| <= U32_MAX
  {
    seq(|es|, i requires 0 <= i < |es| => SenderPiece(es[i]))
  }

  lemma {:induction false} SessionEntriesMeaning(peers: seq<Bytes>, sessions: map<string, Bytes>)
    ensures |SessionEntries(peers, sessions)| <= |peers|
    ensures forall e :: e in SessionEntries(peers, sessions) <==>
      && e.peer in peers && Address(e.peer) in sessions
      && sessions[Address(e.peer)] != [] && e.record == sessions[Address(e.peer)]
    decreases |peers|
  {
    if peers != [] {
      var front, last := peers[..|peers| - 1], peers[|peers| - 1];
      SessionEntriesMeaning(front, sessions);
      assert peers == front + [last];
      forall e: SessionEntry
        ensures e in SessionEntries(peers, sessions) <==>
          && e.peer in peers && Address(e.peer) in sessions
          && sessions[Address(e.peer)] != [] && e.record == sessions[Address(e.peer)]
      {
        assert e.peer in peers <==> e.peer in front || e.peer == last;
      }
    }
  }

  /** Every indexed sender key is written, in index order. */
  lemma {:induction false} SenderEntriesMeaning(
      p: Parsers, index: seq<(Bytes, Bytes)>, stored: map<(string, Bytes), Bytes>)
    requires forall e :: e in index ==> EntryStored(p, stored, e)
    ensures |SenderEntries(index, stored)| == |index|
    ensures forall i :: 0 <= i < |index| ==>
      && EntryStored(p, stored, index[i])
      && SenderEntries(index, stored)[i]
         == SenderEntry(index[i].0, index[i].1, stored[(Address(index[i].0), index[i].1)])
    decreases |index|
  {
    if index != [] {
      var front, last := index[..|index| - 1], index[|index| - 1];
      SenderEntriesMeaning(p, front, stored);
      assert EntryStored(p, stored, last);
    }
  }

  lemma SendersFit(p: Parsers, s: Store)
    requires Inv(p, s) && Fits(s)
    ensures |SenderEntries(s.senderKeyIndex, s.inner.senderKeys)| <= U32_MAX
    ensures forall e :: e in SenderEntries(s.senderKeyIndex, s.inner.senderKeys) ==>
      && |e.sender| <= U16_MAX && |e.dist| == DISTRIBUTION_ID_LEN && |e.record| <= U32_MAX
      && Canonical(p.senderKey, e.record)
  {
    var index, es := s.senderKeyIndex, SenderEntries(s.senderKeyIndex, s.inner.senderKeys);
    SenderEntriesMeaning(p, index, s.inner.senderKeys);
    forall i | 0 <= i < |es|
      ensures |es[i].sender| <= U16_MAX && |es[i].dist| == DISTRIBUTION_ID_LEN && |es[i].record| <= U32_MAX
      ensures Canonical(p.senderKey, es[i].record)
    {
      assert EntryStored(p, s.inner.senderKeys, index[i]);
    }
  }

  lemma PiecesFit(p: Parsers, s: Store)
    requires Inv(p, s) && Fits(s)
    ensures forall q :: q in s.peers ==> |q| <= U16_MAX
    ensures forall id :: id in s.inner.preKeys ==> id <= U32_MAX
    ensures forall id :: id in s.inner.signedPreKeys ==> id <= U32_MAX
    ensures forall id :: id in s.inner.kyberPreKeys ==> id <= U32_MAX
    ensures |SessionEntries(s.peers, s.inner.sessions)| <= U32_MAX
    ensures forall e :: e in SessionEntries(s.peers, s.inner.sessions) ==> |e.peer| <= U16_MAX && |e.record| <= U32_MAX
  {
    SessionEntriesMeaning(s.peers, s.inner.sessions);
  }

  ghost function Header(s: Store): Bytes
    requires |s.inner.identity| <= U32_MAX && s.inner.registrationId <= U32_MAX
    requires s.nextPreKeyId <= U32_MAX && s.nextSignedPreKeyId <= U32_MAX && s.nextKyberPreKeyId <= U32_MAX
  {
    Blob32(s.inner.identity) + U32(s.inner.registrationId)
      + U32(s.nextPreKeyId) + U32(s.nextSignedPreKeyId) + U32(s.nextKyberPreKeyId)
  }

  /** Everything after the version byte that all three versions share. */
  ghost function BodyLayout(p: Parsers, s: Store, o: Orders): Bytes
    requires Serializable(p, s, o)
  {
    PiecesFit(p, s);
    Header(s) + Section(PeerPieces(s.peers)) + KeyListsLayout(p, s, o)
      + Section(SessionPieces(SessionEntries(s.peers, s.inner.sessions)))
  }

  ghost function KeyListsLayout(p: Parsers, s: Store, o: Orders): Bytes
    requires Serializable(p, s, o)
  {
    PiecesFit(p, s);
    Section(KeyPieces(o.preKeys, s.inner.preKeys))
      + Section(KeyPieces(o.signedPreKeys, s.inner.signedPreKeys))
      + Section(KeyPieces(o.kyberPreKeys, s.inner.kyberPreKeys))
  }

  ghost function CertificateLayout(s: Store): Bytes requires Fits(s) {
    Blob32(if s.certificate.Some? then s.certificate.value else [])
  }

  ghost function SenderKeyLayout(p: Parsers, s: Store): Bytes requires Inv(p, s) && Fits(s) {
    SendersFit(p, s);
    Section(SenderPieces(SenderEntries(s.senderKeyIndex, s.inner.senderKeys)))
  }

  /** The version-3 snapshot; versions 1 and 2 stop earlier. */
  ghost function Layout(p: Parsers, s: Store, o: Orders): Bytes requires Serializable(p, s, o) {
    [STORE_VERSION] + BodyLayout(p, s, o) + CertificateLayout(s) + SenderKeyLayout(p, s)
  }

  ghost function LayoutV2(p: Parsers, s: Store, o: Orders): Bytes requires Serializable(p, s, o) {
    [2] + BodyLayout(p, s, o) + CertificateLayout(s)
  }

  ghost function LayoutV1(p: Parsers, s: Store, o: Orders): Bytes requires Serializable(p, s, o) {
    [1] + BodyLayout(p, s, o)
  }

  // ----- what is read -----

  datatype HeaderFields = HeaderFields(identity: Bytes, registrationId: nat, preId: nat, signedId: nat, kyberId: nat)
  datatype KeyLists = KeyLists(preKeys: seq<KeyEntry>, signedPreKeys: seq<KeyEntry>, kyberPreKeys: seq<KeyEntry>)
  datatype Body = Body(header: HeaderFields, peers: seq<Bytes>, keys: KeyLists, sessions: seq<SessionEntry>)
  datatype Tail = Tail(certificate: Option<Bytes>, senders: seq<SenderEntry>)

  function ReadHeader(p: Parsers, buf: Bytes): Parsed<HeaderFields> {
    var (raw, rest) :- ReadBlob32(buf);
    var (identity, rest) :- Lift(p.identityPair(raw), rest);
    var (registrationId, rest) :- ReadU32(rest);
    var (preId, rest) :- ReadU32(rest);
    var (signedId, rest) :- ReadU32(rest);
    var (kyberId, rest) :- ReadU32(rest);
    Got(HeaderFields(identity, registrationId, preId, signedId, kyberId), rest)
  }

  function ReadKeyLists(p: Parsers, buf: Bytes): Parsed<KeyLists> {
    var (preKeys, rest) :- ReadSection(KeyReader(p.preKey), buf);
    var (signedPreKeys, rest) :- ReadSection(KeyReader(p.signedPreKey), rest);
    var (kyberPreKeys, rest) :- ReadSection(KeyReader(p.kyberPreKey), rest);
    Got(KeyLists(preKeys, signedPreKeys, kyberPreKeys), rest)
  }

  function ReadBody(p: Parsers, buf: Bytes): Parsed<Body> {
    var (header, rest) :- ReadHeader(p, buf);
    var (peers, rest) :- ReadSection(PeerReader(), rest);
    var (keys, rest) :- ReadKeyLists(p, rest);
    var (sessions, rest) :- ReadSection(SessionReader(), rest);
    Got(Body(header, peers, keys, sessions), rest)
  }

  function ReadCertificate(p: Parsers, version: byte, buf: Bytes): Parsed<Option<Bytes>> {
    if version >= 2 && buf != [] then
      var (raw, rest) :- ReadBlob32(buf);
      if raw == [] then Got(None, rest)
      else
        var (certificate, rest) :- Lift(p.certificate(raw), rest);
        Got(Some(certificate), rest)
    else Got(None, buf)
  }

  function ReadSenders(p: Parsers, version: byte, buf: Bytes): Parsed<seq<SenderEntry>> {
    if version >= 3 && buf != [] then ReadSection(SenderReader(p.senderKey), buf) else Got([], buf)
  }

  function ReadTail(p: Parsers, version: byte, buf: Bytes): Parsed<Tail> {
    var (certificate, rest) :- ReadCertificate(p, version, buf);
    var (senders, rest) :- ReadSenders(p, version, rest);
    Got(Tail(certificate, senders), rest)
  }

  function InsertKeys(es: seq<KeyEntry>): map<nat, Bytes> {
    if es == [] then map[] else InsertKeys(es[..|es| - 1])[es[|es| - 1].0 := es[|es| - 1].1]
  }

  function InsertSenders(es: seq<SenderEntry>): map<(string, Bytes), Bytes> {
    if es == [] then map[]
    else
      var e := es[|es| - 1];
      InsertSenders(es[..|es| - 1])[(Address(e.sender), e.dist) := e.record]
  }

  function SenderIndex(es: seq<SenderEntry>): seq<(Bytes, Bytes)> {
    seq(|es|, i requires 0 <= i < |es| => (es[i].sender, es[i].dist))
  }

  /** What the session loop accumulates; `skipped` are the peers named in a record it gave up on. */
  datatype Sessions = Sessions(stored: map<string, Bytes>, pinned: map<string, Bytes>, skipped: set<Bytes>)

  /** One session record.  A record that parses is stored before its peer's identity is decoded. */
  function LoadSession(p: Parsers, acc: Sessions, e: SessionEntry): Sessions {
    var record, identity := p.session(e.record), p.identityKey(e.peer);
    var damaged := record.None? || identity.None?;
    Sessions(if record.None? then acc.stored else acc.stored[Address(e.peer) := record.value],
             if damaged then acc.pinned else acc.pinned[Address(e.peer) := identity.value],
             if damaged then acc.skipped + {e.peer} else acc.skipped)
  }

  function LoadSessions(p: Parsers, es: seq<SessionEntry>): Sessions {
    if es == [] then Sessions(map[], map[], {})
    else LoadSession(p, LoadSessions(p, es[..|es| - 1]), es[|es| - 1])
  }

  function Assemble(p: Parsers, body: Body, tail: Tail): Store {
    var loaded := LoadSessions(p, body.sessions);
    var h := body.header;
    Store(Inner(h.identity, h.registrationId,
                InsertKeys(body.keys.preKeys), InsertKeys(body.keys.signedPreKeys), InsertKeys(body.keys.kyberPreKeys),
                loaded.stored, loaded.pinned, InsertSenders(tail.senders)),
          h.preId, h.signedId, h.kyberId,
          Retain(body.peers, loaded.skipped), tail.certificate, SenderIndex(tail.senders))
  }

  function LoadVersion(p: Parsers, version: byte, buf: Bytes): Option<Store> {
    match ReadBody(p, buf)
    case Fail => None
    case Got(body, rest) =>
      match ReadTail(p, version, rest)
      case Fail => None
      case Got(tail, _) => Some(Assemble(p, body, tail))
  }

  /** `from_serialized`.  Bytes after the last field are not looked at. */
  function Load(p: Parsers, bytes: Bytes): Option<Store> {
    match ReadU8(bytes)
    case Fail => None
    case Got(version, rest) =>
      if version != STORE_VERSION && version != 2 && version != 1 then None else LoadVersion(p, version, rest)
  }

  // ----- reading back what was written -----

  ghost function WrittenHeader(s: Store): HeaderFields {
    HeaderFields(s.inner.identity, s.inner.registrationId, s.nextPreKeyId, s.nextSignedPreKeyId, s.nextKyberPreKeyId)
  }

  /** The header's fields read one after the other. */
  lemma HeaderInParts(p: Parsers, buf: Bytes, t1: Bytes, t2: Bytes, t3: Bytes, t4: Bytes, rest: Bytes, h: HeaderFields)
    requires ReadBlob32(buf) == Got(h.identity, t1) && p.identityPair(h.identity) == Some(h.identity)
    requires ReadU32(t1) == Got(h.registrationId, t2) && ReadU32(t2) == Got(h.preId, t3)
    requires ReadU32(t3) == Got(h.signedId, t4) && ReadU32(t4) == Got(h.kyberId, rest)
    ensures ReadHeader(p, buf) == Got(h, rest)
  {
  }

  lemma RegroupHeader(a: Bytes, b: Bytes, c: Bytes, d: Bytes, e: Bytes, rest: Bytes)
    ensures a + b + c + d + e + rest == a + (b + (c + (d + (e + rest))))
  {
  }

  lemma ReadHeaderOf(p: Parsers, s: Store, rest: Bytes)
    requires Inv(p, s) && Fits(s)
    ensures ReadHeader(p, Header(s) + rest) == Got(WrittenHeader(s), rest)
  {
    var b1, b2 := U32(s.inner.registrationId), U32(s.nextPreKeyId);
    var b3, b4 := U32(s.nextSignedPreKeyId), U32(s.nextKyberPreKeyId);
    RegroupHeader(Blob32(s.inner.identity), b1, b2, b3, b4, rest);
    ReadBlob32Of(s.inner.identity, b1 + (b2 + (b3 + (b4 + rest))));
    ReadU32Of(s.inner.registrationId, b2 + (b3 + (b4 + rest)));
    ReadU32Of(s.nextPreKeyId, b3 + (b4 + rest));
    ReadU32Of(s.nextSignedPreKeyId, b4 + rest);
    ReadU32Of(s.nextKyberPreKeyId, rest);
    HeaderInParts(p, Header(s) + rest, b1 + (b2 + (b3 + (b4 + rest))), b2 + (b3 + (b4 + rest)), b3 + (b4 + rest),
                  b4 + rest, rest, WrittenHeader(s));
  }

  lemma PeersOf(peers: seq<Bytes>, rest: Bytes)
    requires |peers| <= U32_MAX && forall q :: q in peers ==> |q| <= U16_MAX
    ensures ReadSection(PeerReader(), Section(PeerPieces(peers)) + rest) == Got(peers, rest)
  {
    forall i | 0 <= i < |peers| ensures Encodes(PeerReader(), PeerPieces(peers)[i], peers[i]) { PeerEncodes(peers[i]); }
    SectionOf(PeerReader(), peers, PeerPieces(peers), rest);
  }

  lemma KeysOf(parse: Bytes -> Option<Bytes>, order: seq<nat>, m: map<nat, Bytes>, rest: Bytes)
    requires |order| <= U32_MAX
    requires forall id :: id in order ==> id in m && id <= U32_MAX && |m[id]| <= U32_MAX && Canonical(parse, m[id])
    ensures ReadSection(KeyReader(parse), Section(KeyPieces(order, m)) + rest) == Got(KeyEntries(order, m), rest)
  {
    var es, pieces := KeyEntries(order, m), KeyPieces(order, m);
    forall i | 0 <= i < |es| ensures Encodes(KeyReader(parse), pieces[i], es[i]) { KeyEncodes(parse, es[i]); }
    SectionOf(KeyReader(parse), es, pieces, rest);
  }

  lemma SessionsOf(es: seq<SessionEntry>, rest: Bytes)
    requires |es| <= U32_MAX && forall e :: e in es ==> |e.peer| <= U16_MAX && |e.record| <= U32_MAX
    ensures ReadSection(SessionReader(), Section(SessionPieces(es)) + rest) == Got(es, rest)
  {
    forall i | 0 <= i < |es| ensures Encodes(SessionReader(), SessionPieces(es)[i], es[i]) { SessionEncodes(es[i]); }
    SectionOf(SessionReader(), es, SessionPieces(es), rest);
  }

  lemma SendersOf(parse: Bytes -> Option<Bytes>, es: seq<SenderEntry>, rest: Bytes)
    requires |es| <= U32_MAX
    requires forall e :: e in es ==>
      |e.sender| <= U16_MAX && |e.dist| == DISTRIBUTION_ID_LEN && |e.record| <= U32_MAX && Canonical(parse, e.record)
    ensures ReadSection(SenderReader(parse), Section(SenderPieces(es)) + rest) == Got(es, rest)
  {
    forall i | 0 <= i < |es| ensures Encodes(SenderReader(parse), SenderPieces(es)[i], es[i]) {
      SenderEncodes(parse, es[i]);
    }
    SectionOf(SenderReader(parse), es, SenderPieces(es), rest);
  }

  ghost function WrittenKeys(p: Parsers, s: Store, o: Orders): KeyLists requires Serializable(p, s, o) {
    KeyLists(KeyEntries(o.preKeys, s.inner.preKeys), KeyEntries(o.signedPreKeys, s.inner.signedPreKeys),
             KeyEntries(o.kyberPreKeys, s.inner.kyberPreKeys))
  }

  ghost function WrittenBody(p: Parsers, s: Store, o: Orders): Body requires Serializable(p, s, o) {
    Body(WrittenHeader(s), s.peers, WrittenKeys(p, s, o), SessionEntries(s.peers, s.inner.sessions))
  }

  lemma Regroup(a: Bytes, b: Bytes, c: Bytes, d: Bytes)
    ensures a + b + c + d == a + (b + (c + d))
  {
  }

  lemma RegroupTail(a: Bytes, b: Bytes, c: Bytes, d: Bytes, rest: Bytes)
    ensures a + b + c + d + rest == a + (b + (c + (d + rest)))
  {
  }

  lemma BodyInParts(p: Parsers, t0: Bytes, t1: Bytes, t2: Bytes, t3: Bytes, rest: Bytes, body: Body)
    requires ReadHeader(p, t0) == Got(body.header, t1)
    requires ReadSection(PeerReader(), t1) == Got(body.peers, t2)
    requires ReadKeyLists(p, t2) == Got(body.keys, t3)
    requires ReadSection(SessionReader(), t3) == Got(body.sessions, rest)
    ensures ReadBody(p, t0) == Got(body, rest)
  {
  }

  lemma KeyListsOf(p: Parsers, s: Store, o: Orders, rest: Bytes)
    requires Serializable(p, s, o)
    ensures ReadKeyLists(p, KeyListsLayout(p, s, o) + rest) == Got(WrittenKeys(p, s, o), rest)
  {
    PiecesFit(p, s);
    var k1 := Section(KeyPieces(o.preKeys, s.inner.preKeys));
    var k2 := Section(KeyPieces(o.signedPreKeys, s.inner.signedPreKeys));
    var k3 := Section(KeyPieces(o.kyberPreKeys, s.inner.kyberPreKeys));
    Regroup(k1, k2, k3, rest);
    KeysOf(p.preKey, o.preKeys, s.inner.preKeys, k2 + (k3 + rest));
    KeysOf(p.signedPreKey, o.signedPreKeys, s.inner.signedPreKeys, k3 + rest);
    KeysOf(p.kyberPreKey, o.kyberPreKeys, s.inner.kyberPreKeys, rest);
    KeyListsInParts(p, k1 + (k2 + (k3 + rest)), k2 + (k3 + rest), k3 + rest, rest, WrittenKeys(p, s, o));
  }

  lemma KeyListsInParts(p: Parsers, buf: Bytes, t1: Bytes, t2: Bytes, rest: Bytes, keys: KeyLists)
    requires ReadSection(KeyReader(p.preKey), buf) == Got(keys.preKeys, t1)
    requires ReadSection(KeyReader(p.signedPreKey), t1) == Got(keys.signedPreKeys, t2)
    requires ReadSection(KeyReader(p.kyberPreKey), t2) == Got(keys.kyberPreKeys, rest)
    ensures ReadKeyLists(p, buf) == Got(keys, rest)
  {
  }

  lemma ReadBodyOf(p: Parsers, s: Store, o: Orders, rest: Bytes)
    requires Serializable(p, s, o)
    ensures ReadBody(p, BodyLayout(p, s, o) + rest) == Got(WrittenBody(p, s, o), rest)
  {
    PiecesFit(p, s);
    var es := SessionEntries(s.peers, s.inner.sessions);
    var h, ps, ks, ss := Header(s), Section(PeerPieces(s.peers)), KeyListsLayout(p, s, o), Section(SessionPieces(es));
    var t3 := ss + rest;
    var t2 := ks + t3;
    var t1 := ps + t2;
    RegroupTail(h, ps, ks, ss, rest);
    ReadHeaderOf(p, s, t1);
    PeersOf(s.peers, t2);
    KeyListsOf(p, s, o, t3);
    SessionsOf(es, rest);
    BodyInParts(p, h + t1, t1, t2, t3, rest, WrittenBody(p, s, o));
  }
}
