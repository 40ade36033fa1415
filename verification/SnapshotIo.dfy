/** `serialize` and `from_serialized` as they run: an output buffer appended to, a cursor consumed. */
module SnapshotIo {
  import opened Wire
  import opened DeviceStore
  import opened Snapshot

  // ----- writing -----

  lemma FlattenPush(pieces: seq<Bytes>, i: nat)
    requires i < |pieces|
    ensures Flatten(pieces[..i + 1]) == Flatten(pieces[..i]) + pieces[i]
  {
    assert pieces[..i + 1][..i] == pieces[..i];
  }

  /** A section with its count and its first `i` pieces out. */
  ghost predicate Written(out: Bytes, prefix: Bytes, pieces: seq<Bytes>, i: nat) {
    i <= |pieces| <= U32_MAX && out == prefix + (U32(|pieces|) + Flatten(pieces[..i]))
  }

  lemma WriteStarts(prefix: Bytes, pieces: seq<Bytes>)
    requires |pieces| <= U32_MAX
    ensures Written(prefix + U32(|pieces|), prefix, pieces, 0)
  {
    assert pieces[..0] == [];
    assert U32(|pieces|) + Flatten([]) == U32(|pieces|);
  }

  lemma WritePush(out: Bytes, prefix: Bytes, pieces: seq<Bytes>, i: nat, item: Bytes)
    requires Written(out, prefix, pieces, i) && i < |pieces| && item == pieces[i]
    ensures Written(out + item, prefix, pieces, i + 1)
  {
    FlattenPush(pieces, i);
  }

  lemma WriteEnds(out: Bytes, prefix: Bytes, pieces: seq<Bytes>)
    requires Written(out, prefix, pieces, |pieces|)
    ensures out == prefix + Section(pieces)
  {
    assert pieces[..|pieces|] == pieces;
  }

  method WritePeers(prefix: Bytes, peers: seq<Bytes>) returns (out: Bytes)
    requires |peers| <= U32_MAX && forall q :: q in peers ==> |q| <= U16_MAX
    ensures out == prefix + Section(PeerPieces(peers))
  {
    ghost var pieces := PeerPieces(peers);
    out := prefix + U32(|peers|);
    WriteStarts(prefix, pieces);
    for i := 0 to |peers|
      invariant Written(out, prefix, pieces, i)
    {
      WritePush(out, prefix, pieces, i, Blob16(peers[i]));
      out := out + Blob16(peers[i]);
    }
    WriteEnds(out, prefix, pieces);
  }

  method WriteKeys(prefix: Bytes, order: seq<nat>, m: map<nat, Bytes>) returns (out: Bytes)
    requires |order| <= U32_MAX && forall id :: id in order ==> id in m && id <= U32_MAX && |m[id]| <= U32_MAX
    ensures out == prefix + Section(KeyPieces(order, m))
  {
    ghost var pieces := KeyPieces(order, m);
    out := prefix + U32(|order|);
    WriteStarts(prefix, pieces);
    for i := 0 to |order|
      invariant Written(out, prefix, pieces, i)
    {
      var item := U32(order[i]);
      item := item + Blob32(m[order[i]]);
      WritePush(out, prefix, pieces, i, item);
      out := out + item;
    }
    WriteEnds(out, prefix, pieces);
  }

  method CollectSessions(peers: seq<Bytes>, sessions: map<string, Bytes>) returns (entries: seq<SessionEntry>)
    ensures entries == SessionEntries(peers, sessions)
  {
    entries := [];
    for i := 0 to |peers|
      invariant entries == SessionEntries(peers[..i], sessions)
    {
      assert peers[..i + 1][..i] == peers[..i];
      var a := Address(peers[i]);
      if a in sessions && sessions[a] != [] {
        entries := entries + [SessionEntry(peers[i], sessions[a])];
      }
    }
    assert peers[..|peers|] == peers;
  }

  method WriteSessions(prefix: Bytes, entries: seq<SessionEntry>) returns (out: Bytes)
    requires |entries| <= U32_MAX && forall e :: e in entries ==> |e.peer| <= U16_MAX && |e.record| <= U32_MAX
    ensures out == prefix + Section(SessionPieces(entries))
  {
    ghost var pieces := SessionPieces(entries);
    out := prefix + U32(|entries|);
    WriteStarts(prefix, pieces);
    for i := 0 to |entries|
      invariant Written(out, prefix, pieces, i)
    {
      var item := Blob16(entries[i].peer);
      item := item + Blob32(entries[i].record);
      WritePush(out, prefix, pieces, i, item);
      out := out + item;
    }
    WriteEnds(out, prefix, pieces);
  }

  method CollectSenders(index: seq<(Bytes, Bytes)>, stored: map<(string, Bytes), Bytes>)
    returns (entries: seq<SenderEntry>)
    ensures entries == SenderEntries(index, stored)
  {
    entries := [];
    for i := 0 to |index|
      invariant entries == SenderEntries(index[..i], stored)
    {
      assert index[..i + 1][..i] == index[..i];
      var k := (Address(index[i].0), index[i].1);
      if k in stored && stored[k] != [] {
        entries := entries + [SenderEntry(index[i].0, index[i].1, stored[k])];
      }
    }
    assert index[..|index|] == index;
  }

  method WriteSenders(prefix: Bytes, entries: seq<SenderEntry>) returns (out: Bytes)
    requires |entries| <= U32_MAX && forall e :: e in entries ==> |e.sender| <= U16_MAX && |e.record| <= U32_MAX
    ensures out == prefix + Section(SenderPieces(entries))
  {
    ghost var pieces := SenderPieces(entries);
    out := prefix + U32(|entries|);
    WriteStarts(prefix, pieces);
    for i := 0 to |entries|
      invariant Written(out, prefix, pieces, i)
    {
      var item := Blob16(entries[i].sender);
      item := item + entries[i].dist;
      item := item + Blob32(entries[i].record);
      WritePush(out, prefix, pieces, i, item);
      out := out + item;
    }
    WriteEnds(out, prefix, pieces);
  }

  /** No length prefix overflows on a reachable store, so no write aborts. */
  method Serialize(ghost p: Parsers, d: Device, o: Orders) returns (out: Bytes)
    requires Serializable(p, d.Image(), o)
    ensures out == Layout(p, d.Image(), o)
  {
    ghost var s := d.Image();
    PiecesFit(p, s);
    SendersFit(p, s);
    var body := Blob32(d.inner.identity);
    body := body + U32(d.inner.registrationId);
    body := body + U32(d.nextPreKeyId);
    body := body + U32(d.nextSignedPreKeyId);
    body := body + U32(d.nextKyberPreKeyId);
    body := WritePeers(body, d.peers);
    var keys := WriteKeys([], o.preKeys, d.inner.preKeys);
    keys := WriteKeys(keys, o.signedPreKeys, d.inner.signedPreKeys);
    keys := WriteKeys(keys, o.kyberPreKeys, d.inner.kyberPreKeys);
    assert keys == KeyListsLayout(p, s, o) by {
      assert [] + Section(KeyPieces(o.preKeys, s.inner.preKeys)) == Section(KeyPieces(o.preKeys, s.inner.preKeys));
    }
    body := body + keys;
    var sessions := CollectSessions(d.peers, d.inner.sessions);
    body := WriteSessions(body, sessions);
    assert body == BodyLayout(p, s, o);
    out := [STORE_VERSION] + body;
    out := out + Blob32(if d.certificate.Some? then d.certificate.value else []);
    var senders := CollectSenders(d.senderKeyIndex, d.inner.senderKeys);
    out := WriteSenders(out, senders);
  }

  // ----- reading -----

  /** What the whole read gives, once `seen` elements are in and `r` is the read of the others. */
  ghost function Resume<T>(seen: seq<T>, r: Parsed<seq<T>>): Parsed<seq<T>> {
    if r.Fail? then Fail else Got(seen + r.value, r.rest)
  }

  lemma ResumeStart<T>(r: Parsed<seq<T>>)
    ensures Resume([], r) == r
  {
    if r.Got? { assert [] + r.value == r.value; }
  }

  lemma ResumeStep<T>(read: Bytes -> Parsed<T>, n: nat, buf: Bytes, seen: seq<T>)
    requires n > 0
    ensures Resume(seen, Many(read, n, buf))
      == match read(buf)
         case Fail => Fail
         case Got(x, rest) => Resume(seen + [x], Many(read, n - 1, rest))
  {
    var r := read(buf);
    if r.Got? {
      var tail := Many(read, n - 1, r.rest);
      if tail.Got? {
        assert seen + ([r.value] + tail.value) == seen + [r.value] + tail.value;
      }
    }
  }

  lemma ResumeEnd<T>(read: Bytes -> Parsed<T>, buf: Bytes, seen: seq<T>)
    ensures Resume(seen, Many(read, 0, buf)) == Got(seen, buf)
  {
    assert seen + [] == seen;
  }

  /** `read` makes `o` of `buf`. */
  ghost predicate Yields<T(!new)>(read: Bytes -> Parsed<T>, buf: Bytes, o: Parsed<T>) { read(buf) == o }

  /** A cursor read that took `before` to `after`, as `read` would. */
  ghost predicate Reads<T(!new)>(read: Bytes -> Parsed<T>, before: Bytes, r: Option<T>, after: Bytes) {
    forall o :: Yields(read, before, o) ==>
      match o
      case Fail => r.None?
      case Got(v, rest) => r == Some(v) && after == rest
  }

  /** Reading `n` elements of `buf` makes `o`. */
  ghost predicate Parses<T(!new)>(read: Bytes -> Parsed<T>, n: nat, buf: Bytes, o: Parsed<seq<T>>) {
    Many(read, n, buf) == o
  }

  /** With `seen` in and `n` elements still in `buf`, the whole read is `whole`. */
  ghost predicate Left<T(!new)>(
      read: Bytes -> Parsed<T>, n: nat, buf: Bytes, seen: seq<T>, whole: Parsed<seq<T>>)
  {
    forall o :: Parses(read, n, buf, o) ==> Resume(seen, o) == whole
  }

  lemma LeftStarts<T(!new)>(read: Bytes -> Parsed<T>, n: nat, buf: Bytes)
    ensures Left(read, n, buf, [], Many(read, n, buf))
  {
    ResumeStart(Many(read, n, buf));
  }

  /** One turn of a reading loop. */
  lemma LeftStep<T(!new)>(
      read: Bytes -> Parsed<T>, n: nat, before: Bytes, after: Bytes, seen: seq<T>, e: Option<T>, whole: Parsed<seq<T>>)
    requires n > 0 && Left(read, n, before, seen, whole) && Reads(read, before, e, after)
    ensures e.None? ==> whole.Fail?
    ensures e.Some? ==> Left(read, n - 1, after, seen + [e.value], whole)
  {
    assert Parses(read, n, before, Many(read, n, before)) && Yields(read, before, read(before));
    ResumeStep(read, n, before, seen);
  }

  lemma LeftEnds<T(!new)>(read: Bytes -> Parsed<T>, buf: Bytes, seen: seq<T>, whole: Parsed<seq<T>>)
    requires Left(read, 0, buf, seen, whole)
    ensures whole == Got(seen, buf)
  {
    assert Parses(read, 0, buf, Many(read, 0, buf));
    ResumeEnd(read, buf, seen);
  }

  // ----- peers -----

  method ReadPeers(c: Cursor) returns (r: Option<seq<Bytes>>)
    modifies c
    ensures match ReadSection(PeerReader(), old(c.buf))
      case Fail => r.None?
      case Got(peers, rest) => r == Some(peers) && c.buf == rest
  {
    var n := c.Count();
    if n.None? { return None; }
    LeftStarts(PeerReader(), n.value, c.buf);
    r := ReadPeerItems(c, n.value, Many(PeerReader(), n.value, c.buf));
  }

  method ReadPeerItems(c: Cursor, n: nat, ghost whole: Parsed<seq<Bytes>>) returns (r: Option<seq<Bytes>>)
    requires Left(PeerReader(), n, c.buf, [], whole)
    modifies c
    ensures if whole.Fail? then r.None? else r == Some(whole.value) && c.buf == whole.rest
  {
    var peers: seq<Bytes> := [];
    for left := n downto 0
      invariant Left(PeerReader(), left, c.buf, peers, whole)
    {
      ghost var before := c.buf;
      var peer := ReadPeerItem(c);
      LeftStep(PeerReader(), left + 1, before, c.buf, peers, peer, whole);
      if peer.None? { return None; }
      peers := peers + [peer.value];
    }
    LeftEnds(PeerReader(), c.buf, peers, whole);
    r := Some(peers);
  }

  method ReadPeerItem(c: Cursor) returns (r: Option<Bytes>)
    modifies c
    ensures Reads(PeerReader(), old(c.buf), r, c.buf)
  {
    r := c.U16Blob();
  }

  // ----- keys -----

  lemma InsertKeysPush(seen: seq<KeyEntry>, e: KeyEntry)
    ensures InsertKeys(seen + [e]) == InsertKeys(seen)[e.0 := e.1]
  {
    assert (seen + [e])[..|seen|] == seen;
  }

  method ReadKeyItem(parse: Bytes -> Option<Bytes>, c: Cursor) returns (r: Option<KeyEntry>)
    modifies c
    ensures Reads(KeyReader(parse), old(c.buf), r, c.buf)
  {
    var id := c.U32();
    if id.None? { return None; }
    var raw := c.U32Blob();
    if raw.None? { return None; }
    var record := parse(raw.value);
    r := if record.None? then None else Some((id.value, record.value));
  }

  method ReadKeyMap(parse: Bytes -> Option<Bytes>, c: Cursor) returns (r: Option<map<nat, Bytes>>)
    modifies c
    ensures match ReadSection(KeyReader(parse), old(c.buf))
      case Fail => r.None?
      case Got(es, rest) => r == Some(InsertKeys(es)) && c.buf == rest
  {
    var n := c.Count();
    if n.None? { return None; }
    LeftStarts(KeyReader(parse), n.value, c.buf);
    r := ReadKeyItems(parse, c, n.value, Many(KeyReader(parse), n.value, c.buf));
  }

  method ReadKeyItems(parse: Bytes -> Option<Bytes>, c: Cursor, n: nat, ghost whole: Parsed<seq<KeyEntry>>)
    returns (r: Option<map<nat, Bytes>>)
    requires Left(KeyReader(parse), n, c.buf, [], whole)
    modifies c
    ensures if whole.Fail? then r.None? else r == Some(InsertKeys(whole.value)) && c.buf == whole.rest
  {
    ghost var seen: seq<KeyEntry> := [];
    var m: map<nat, Bytes> := map[];
    for left := n downto 0
      invariant Left(KeyReader(parse), left, c.buf, seen, whole) && m == InsertKeys(seen)
    {
      ghost var before := c.buf;
      var e := ReadKeyItem(parse, c);
      LeftStep(KeyReader(parse), left + 1, before, c.buf, seen, e, whole);
      if e.None? { return None; }
      InsertKeysPush(seen, e.value);
      m := m[e.value.0 := e.value.1];
      seen := seen + [e.value];
    }
    LeftEnds(KeyReader(parse), c.buf, seen, whole);
    r := Some(m);
  }

  // ----- sessions -----

  lemma LoadSessionsPush(p: Parsers, seen: seq<SessionEntry>, e: SessionEntry)
    ensures LoadSessions(p, seen + [e]) == LoadSession(p, LoadSessions(p, seen), e)
  {
    assert (seen + [e])[..|seen|] == seen;
  }

  method ReadSessionItem(c: Cursor) returns (r: Option<SessionEntry>)
    modifies c
    ensures Reads(SessionReader(), old(c.buf), r, c.buf)
  {
    var peer := c.U16Blob();
    if peer.None? { return None; }
    var raw := c.U32Blob();
    r := if raw.None? then None else Some(SessionEntry(peer.value, raw.value));
  }

  /** Of the records `es` the loader keeps `o`. */
  ghost predicate Loads(p: Parsers, es: seq<SessionEntry>, o: Sessions) { LoadSessions(p, es) == o }

  ghost predicate Kept(p: Parsers, seen: seq<SessionEntry>, acc: Sessions) {
    forall o :: Loads(p, seen, o) ==> acc == o
  }

  lemma KeptMeans(p: Parsers, seen: seq<SessionEntry>, acc: Sessions)
    requires Kept(p, seen, acc)
    ensures acc == LoadSessions(p, seen)
  {
    assert Loads(p, seen, LoadSessions(p, seen));
  }

  /** The body of the skip-tolerant loop: a damaged record costs its peer, not the store. */
  method KeepSession(p: Parsers, ghost seen: seq<SessionEntry>, acc: Sessions, e: SessionEntry) returns (r: Sessions)
    requires Kept(p, seen, acc)
    ensures Kept(p, seen + [e], r)
  {
    KeptMeans(p, seen, acc);
    LoadSessionsPush(p, seen, e);
    r := acc;
    var record := p.session(e.record);
    if record.None? {
      return r.(skipped := r.skipped + {e.peer});
    }
    r := r.(stored := r.stored[Address(e.peer) := record.value]);
    var identity := p.identityKey(e.peer);
    if identity.None? {
      return r.(skipped := r.skipped + {e.peer});
    }
    r := r.(pinned := r.pinned[Address(e.peer) := identity.value]);
  }

  method ReadSessions(p: Parsers, c: Cursor) returns (r: Option<Sessions>)
    modifies c
    ensures match ReadSection(SessionReader(), old(c.buf))
      case Fail => r.None?
      case Got(es, rest) => r == Some(LoadSessions(p, es)) && c.buf == rest
  {
    var n := c.Count();
    if n.None? { return None; }
    LeftStarts(SessionReader(), n.value, c.buf);
    ghost var whole := Many(SessionReader(), n.value, c.buf);
    r := ReadSessionItems(p, c, n.value, whole);
    if r.Some? { KeptMeans(p, whole.value, r.value); }
  }

  method ReadSessionItems(p: Parsers, c: Cursor, n: nat, ghost whole: Parsed<seq<SessionEntry>>)
    returns (r: Option<Sessions>)
    requires Left(SessionReader(), n, c.buf, [], whole)
    modifies c
    ensures if whole.Fail? then r.None? else r.Some? && Kept(p, whole.value, r.value) && c.buf == whole.rest
  {
    ghost var seen: seq<SessionEntry> := [];
    var acc := Sessions(map[], map[], {});
    for left := n downto 0
      invariant Left(SessionReader(), left, c.buf, seen, whole) && Kept(p, seen, acc)
    {
      ghost var before := c.buf;
      var e := ReadSessionItem(c);
      LeftStep(SessionReader(), left + 1, before, c.buf, seen, e, whole);
      if e.None? { return None; }
      acc := KeepSession(p, seen, acc, e.value);
      seen := seen + [e.value];
    }
    LeftEnds(SessionReader(), c.buf, seen, whole);
    r := Some(acc);
  }

  // ----- sender keys -----

  /** `stored` and `index` are what the entries `es` leave. */
  ghost predicate Files(es: seq<SenderEntry>, stored: map<(string, Bytes), Bytes>, index: seq<(Bytes, Bytes)>) {
    stored == InsertSenders(es) && index == SenderIndex(es)
  }

  ghost predicate Filed(es: seq<SenderEntry>, stored: map<(string, Bytes), Bytes>, index: seq<(Bytes, Bytes)>) {
    forall m, i :: Files(es, m, i) ==> stored == m && index == i
  }

  lemma FiledMeans(es: seq<SenderEntry>, stored: map<(string, Bytes), Bytes>, index: seq<(Bytes, Bytes)>)
    requires Filed(es, stored, index)
    ensures stored == InsertSenders(es) && index == SenderIndex(es)
  {
    assert Files(es, InsertSenders(es), SenderIndex(es));
  }

  lemma FiledPush(
      seen: seq<SenderEntry>, stored: map<(string, Bytes), Bytes>, index: seq<(Bytes, Bytes)>, e: SenderEntry)
    requires Filed(seen, stored, index)
    ensures Filed(seen + [e], stored[(Address(e.sender), e.dist) := e.record], index + [(e.sender, e.dist)])
  {
    FiledMeans(seen, stored, index);
    assert (seen + [e])[..|seen|] == seen;
  }

  method ReadSenderItem(parse: Bytes -> Option<Bytes>, c: Cursor) returns (r: Option<SenderEntry>)
    modifies c
    ensures Reads(SenderReader(parse), old(c.buf), r, c.buf)
  {
    var sender := c.U16Blob();
    if sender.None? { return None; }
    var dist := c.Take(DISTRIBUTION_ID_LEN);
    if dist.None? { return None; }
    var raw := c.U32Blob();
    if raw.None? { return None; }
    var record := parse(raw.value);
    r := if record.None? then None else Some(SenderEntry(sender.value, dist.value, record.value));
  }

  method ReadSenderKeys(parse: Bytes -> Option<Bytes>, c: Cursor)
    returns (ok: bool, stored: map<(string, Bytes), Bytes>, index: seq<(Bytes, Bytes)>)
    modifies c
    ensures match ReadSection(SenderReader(parse), old(c.buf))
      case Fail => !ok
      case Got(es, rest) => ok && stored == InsertSenders(es) && index == SenderIndex(es) && c.buf == rest
  {
    stored, index, ok := map[], [], false;
    var n := c.Count();
    if n.None? { return; }
    LeftStarts(SenderReader(parse), n.value, c.buf);
    ghost var whole := Many(SenderReader(parse), n.value, c.buf);
    ok, stored, index := ReadSenderItems(parse, c, n.value, whole);
    if ok { FiledMeans(whole.value, stored, index); }
  }

  method ReadSenderItems(parse: Bytes -> Option<Bytes>, c: Cursor, n: nat, ghost whole: Parsed<seq<SenderEntry>>)
    returns (ok: bool, stored: map<(string, Bytes), Bytes>, index: seq<(Bytes, Bytes)>)
    requires Left(SenderReader(parse), n, c.buf, [], whole)
    modifies c
    ensures if whole.Fail? then !ok else ok && Filed(whole.value, stored, index) && c.buf == whole.rest
  {
    stored, index, ok := map[], [], false;
    ghost var seen: seq<SenderEntry> := [];
    for left := n downto 0
      invariant Left(SenderReader(parse), left, c.buf, seen, whole) && Filed(seen, stored, index)
    {
      ghost var before := c.buf;
      var e := ReadSenderItem(parse, c);
      LeftStep(SenderReader(parse), left + 1, before, c.buf, seen, e, whole);
      if e.None? { return; }
      FiledPush(seen, stored, index, e.value);
      stored := stored[(Address(e.value.sender), e.value.dist) := e.value.record];
      index := index + [(e.value.sender, e.value.dist)];
      seen := seen + [e.value];
    }
    LeftEnds(SenderReader(parse), c.buf, seen, whole);
    ok := true;
  }

  // ----- the whole snapshot -----

  method ReadHeaderFields(p: Parsers, c: Cursor) returns (r: Option<HeaderFields>)
    modifies c
    ensures match ReadHeader(p, old(c.buf))
      case Fail => r.None?
      case Got(h, rest) => r == Some(h) && c.buf == rest
  {
    var raw := c.U32Blob();
    if raw.None? { return None; }
    var identity := p.identityPair(raw.value);
    if identity.None? { return None; }
    var registrationId := c.U32();
    if registrationId.None? { return None; }
    var preId := c.U32();
    if preId.None? { return None; }
    var signedId := c.U32();
    if signedId.None? { return None; }
    var kyberId := c.U32();
    if kyberId.None? { return None; }
    r := Some(HeaderFields(identity.value, registrationId.value, preId.value, signedId.value, kyberId.value));
  }

  method ReadCertificateField(p: Parsers, version: byte, c: Cursor) returns (ok: bool, certificate: Option<Bytes>)
    modifies c
    ensures match ReadCertificate(p, version, old(c.buf))
      case Fail => !ok
      case Got(v, rest) => ok && certificate == v && c.buf == rest
  {
    certificate := None;
    if version >= 2 && c.buf != [] {
      var raw := c.U32Blob();
      if raw.None? { return false, None; }
      if raw.value != [] {
        certificate := p.certificate(raw.value);
        if certificate.None? { return false, None; }
      }
    }
    ok := true;
  }

  method Retained(peers: seq<Bytes>, dropped: set<Bytes>) returns (kept: seq<Bytes>)
    ensures kept == Retain(peers, dropped)
  {
    kept := [];
    for i := 0 to |peers|
      invariant kept == Retain(peers[..i], dropped)
    {
      assert peers[..i + 1][..i] == peers[..i];
      if peers[i] !in dropped { kept := kept + [peers[i]]; }
    }
    assert peers[..|peers|] == peers;
  }

  method ReadTailFields(p: Parsers, version: byte, c: Cursor)
    returns (ok: bool, certificate: Option<Bytes>, stored: map<(string, Bytes), Bytes>, index: seq<(Bytes, Bytes)>)
    modifies c
    ensures match ReadTail(p, version, old(c.buf))
      case Fail => !ok
      case Got(t, _) =>
        ok && certificate == t.certificate && stored == InsertSenders(t.senders) && index == SenderIndex(t.senders)
  {
    stored, index := map[], [];
    ok, certificate := ReadCertificateField(p, version, c);
    if ok && version >= 3 && c.buf != [] {
      ok, stored, index := ReadSenderKeys(p.senderKey, c);
    }
  }

  method ReadBodyFields(p: Parsers, c: Cursor)
    returns (ok: bool, h: HeaderFields, peers: seq<Bytes>, preKeys: map<nat, Bytes>, signedPreKeys: map<nat, Bytes>,
             kyberPreKeys: map<nat, Bytes>, sessions: Sessions)
    modifies c
    ensures match ReadBody(p, old(c.buf))
      case Fail => !ok
      case Got(b, rest) =>
        && ok && h == b.header && peers == b.peers && sessions == LoadSessions(p, b.sessions) && c.buf == rest
        && preKeys == InsertKeys(b.keys.preKeys) && signedPreKeys == InsertKeys(b.keys.signedPreKeys)
        && kyberPreKeys == InsertKeys(b.keys.kyberPreKeys)
  {
    ok, h, peers, sessions := false, HeaderFields([], 0, 0, 0, 0), [], Sessions(map[], map[], {});
    preKeys, signedPreKeys, kyberPreKeys := map[], map[], map[];
    var header := ReadHeaderFields(p, c);
    if header.None? { return; }
    h := header.value;
    var listed := ReadPeers(c);
    if listed.None? { return; }
    peers := listed.value;
    var m := ReadKeyMap(p.preKey, c);
    if m.None? { return; }
    preKeys := m.value;
    m := ReadKeyMap(p.signedPreKey, c);
    if m.None? { return; }
    signedPreKeys := m.value;
    m := ReadKeyMap(p.kyberPreKey, c);
    if m.None? { return; }
    kyberPreKeys := m.value;
    var loaded := ReadSessions(p, c);
    if loaded.None? { return; }
    ok, sessions := true, loaded.value;
  }

  method Rebuild(s: Store) returns (d: Device)
    ensures fresh(d) && d.Image() == s
  {
    d := new Device(s.inner.identity, s.inner.registrationId);
    d.inner := s.inner;
    d.nextPreKeyId, d.nextSignedPreKeyId := s.nextPreKeyId, s.nextSignedPreKeyId;
    d.nextKyberPreKeyId := s.nextKyberPreKeyId;
    d.peers, d.certificate, d.senderKeyIndex := s.peers, s.certificate, s.senderKeyIndex;
  }

  method DeserializeVersion(p: Parsers, version: byte, c: Cursor) returns (r: Option<Store>)
    modifies c
    ensures r == LoadVersion(p, version, old(c.buf))
  {
    var ok, h, peers, preKeys, signedPreKeys, kyberPreKeys, sessions := ReadBodyFields(p, c);
    if !ok { return None; }
    peers := Retained(peers, sessions.skipped);
    var tailOk, certificate, stored, index := ReadTailFields(p, version, c);
    if !tailOk { return None; }
    r := Some(Store(Inner(h.identity, h.registrationId, preKeys, signedPreKeys, kyberPreKeys,
                          sessions.stored, sessions.pinned, stored),
                    h.preId, h.signedId, h.kyberId, peers, certificate, index));
  }

  /** `from_serialized`: a device rebuilt from a snapshot, or nothing at all. */
  method Deserialize(p: Parsers, bytes: Bytes) returns (r: Device?)
    ensures r == null <==> Load(p, bytes).None?
    ensures r != null ==> fresh(r) && Load(p, bytes) == Some(r.Image())
  {
    var c := new Cursor(bytes);
    var version := c.U8();
    if version.None? { return null; }
    if version.value != STORE_VERSION && version.value != 2 && version.value != 1 { return null; }
    var loaded := DeserializeVersion(p, version.value, c);
    if loaded.None? { return null; }
    r := Rebuild(loaded.value);
  }
}
