/** What a loaded snapshot holds: everything the writer put in, or, when session records are
    damaged, exactly the undamaged part. */
module SnapshotLaws {
  import opened Wire
  import opened DeviceStore
  import opened Snapshot
  import Hex

  // ----- damaged session records -----

  /** The session loop gives up on this record. */
  predicate Damaged(p: Parsers, e: SessionEntry) { p.session(e.record).None? || p.identityKey(e.peer).None? }

  /** What the last record naming `peer` parses to. */
  function LastSession(p: Parsers, es: seq<SessionEntry>, peer: Bytes): Option<Bytes> {
    if es == [] then None
    else if es[|es| - 1].peer == peer then p.session(es[|es| - 1].record)
    else LastSession(p, es[..|es| - 1], peer)
  }

  lemma {:induction false} SkippedAreDamaged(p: Parsers, es: seq<SessionEntry>)
    ensures forall q :: q in LoadSessions(p, es).skipped <==> exists e :: e in es && e.peer == q && Damaged(p, e)
    decreases |es|
  {
    if es != [] {
      var front, last := es[..|es| - 1], es[|es| - 1];
      SkippedAreDamaged(p, front);
      assert es == front + [last];
      forall q
        ensures q in LoadSessions(p, es).skipped <==> exists e :: e in es && e.peer == q && Damaged(p, e)
      {
        if q in LoadSessions(p, front).skipped {
          var e :| e in front && e.peer == q && Damaged(p, e);
          assert e in es;
        } else if Damaged(p, last) && last.peer == q {
          assert last in es;
        }
      }
    }
  }

  /** A peer that some record names and none of whose records was skipped is stored and pinned. */
  lemma {:induction false} UnskippedAreStored(p: Parsers, es: seq<SessionEntry>, peer: Bytes)
    requires (exists e :: e in es && e.peer == peer) && peer !in LoadSessions(p, es).skipped
    ensures
      var r := LoadSessions(p, es);
      && Address(peer) in r.stored && LastSession(p, es, peer) == Some(r.stored[Address(peer)])
      && Address(peer) in r.pinned && p.identityKey(peer) == Some(r.pinned[Address(peer)])
    decreases |es|
  {
    var front, last := es[..|es| - 1], es[|es| - 1];
    assert es == front + [last];
    if last.peer != peer {
      var e :| e in es && e.peer == peer;
      assert e in front;
      UnskippedAreStored(p, front, peer);
      if Address(last.peer) == Address(peer) { Hex.LowerInjective(last.peer, peer); }
    }
  }

  /** For any blob that loads, however damaged its session records: the trusted peers are the
      listed ones minus those named in a skipped record, and every trusted peer with a session
      record has that session stored and its own identity pinned. */
  lemma TrustedPeersAreIntact(p: Parsers, bytes: Bytes)
    requires Load(p, bytes).Some?
    ensures ReadU8(bytes).Got? && ReadBody(p, ReadU8(bytes).rest).Got?
    ensures
      var s := Load(p, bytes).value;
      var body := ReadBody(p, ReadU8(bytes).rest).value;
      && (forall q :: q in s.peers <==>
            q in body.peers && !exists e :: e in body.sessions && e.peer == q && Damaged(p, e))
      && (forall e :: e in body.sessions && e.peer in s.peers ==>
            && Address(e.peer) in s.inner.sessions
            && LastSession(p, body.sessions, e.peer) == Some(s.inner.sessions[Address(e.peer)])
            && Address(e.peer) in s.inner.pinned && p.identityKey(e.peer) == Some(s.inner.pinned[Address(e.peer)]))
  {
    var s := Load(p, bytes).value;
    var body := ReadBody(p, ReadU8(bytes).rest).value;
    var skipped := LoadSessions(p, body.sessions).skipped;
    RetainMembers(body.peers, skipped);
    SkippedAreDamaged(p, body.sessions);
    forall e | e in body.sessions && e.peer in s.peers
      ensures Address(e.peer) in s.inner.sessions
      ensures LastSession(p, body.sessions, e.peer) == Some(s.inner.sessions[Address(e.peer)])
      ensures Address(e.peer) in s.inner.pinned && p.identityKey(e.peer) == Some(s.inner.pinned[Address(e.peer)])
    {
      UnskippedAreStored(p, body.sessions, e.peer);
    }
  }

  /** Loading pins, at every address it pins at all, the identity that address names. */
  lemma {:induction false} LoadPinsMatch(p: Parsers, es: seq<SessionEntry>, q: Bytes)
    requires Address(q) in LoadSessions(p, es).pinned
    ensures p.identityKey(q) == Some(LoadSessions(p, es).pinned[Address(q)])
    decreases |es|
  {
    var front, last := es[..|es| - 1], es[|es| - 1];
    if Address(last.peer) == Address(q) { Hex.LowerInjective(last.peer, q); }
    if Address(q) in LoadSessions(p, front).pinned { LoadPinsMatch(p, front, q); }
  }

  // ----- undamaged snapshots -----

  ghost predicate Agrees(r: map<nat, Bytes>, order: seq<nat>, m: map<nat, Bytes>) {
    forall id :: (id in r <==> id in order) && (id in r && id in m ==> r[id] == m[id])
  }

  lemma AgreesPush(r: map<nat, Bytes>, order: seq<nat>, m: map<nat, Bytes>, id: nat)
    requires Agrees(r, order, m) && id in m
    ensures Agrees(r[id := m[id]], order + [id], m)
  {
  }

  lemma {:induction false} KeysRestored(order: seq<nat>, m: map<nat, Bytes>)
    requires forall id :: id in order ==> id in m
    ensures Agrees(InsertKeys(KeyEntries(order, m)), order, m)
    decreases |order|
  {
    if order != [] {
      var front, last := order[..|order| - 1], order[|order| - 1];
      assert order == front + [last] && last in order;
      KeysRestored(front, m);
      assert KeyEntries(order, m)[..|order| - 1] == KeyEntries(front, m);
      AgreesPush(InsertKeys(KeyEntries(front, m)), front, m, last);
    }
  }

  lemma EnumerationRestores(order: seq<nat>, m: map<nat, Bytes>)
    requires Enumerates(order, m)
    ensures InsertKeys(KeyEntries(order, m)) == m
  {
    KeysRestored(order, m);
  }

  ghost predicate SomeEntryAt(es: seq<SenderEntry>, k: (string, Bytes)) {
    exists e :: e in es && (Address(e.sender), e.dist) == k
  }

  lemma {:induction false} SendersStored(es: seq<SenderEntry>)
    ensures forall k :: k in InsertSenders(es) <==> SomeEntryAt(es, k)
    decreases |es|
  {
    if es != [] {
      var front, last := es[..|es| - 1], es[|es| - 1];
      assert es == front + [last] && last in es;
      SendersStored(front);
      forall k ensures k in InsertSenders(es) <==> SomeEntryAt(es, k) { SomeEntryPush(front, last, k); }
    }
  }

  lemma SomeEntryPush(front: seq<SenderEntry>, last: SenderEntry, k: (string, Bytes))
    ensures SomeEntryAt(front + [last], k) <==> SomeEntryAt(front, k) || (Address(last.sender), last.dist) == k
  {
    if SomeEntryAt(front, k) {
      var e :| e in front && (Address(e.sender), e.dist) == k;
      assert e in front + [last];
    }
    assert last in front + [last];
  }

  lemma {:induction false} SendersAgree(es: seq<SenderEntry>, stored: map<(string, Bytes), Bytes>)
    requires forall e :: e in es ==>
      (Address(e.sender), e.dist) in stored && e.record == stored[(Address(e.sender), e.dist)]
    ensures forall k :: k in InsertSenders(es) ==> k in stored && InsertSenders(es)[k] == stored[k]
    decreases |es|
  {
    if es != [] {
      SendersAgree(es[..|es| - 1], stored);
    }
  }

  lemma WrittenSendersAgree(p: Parsers, s: Store)
    requires SenderKeysIndexed(p, s)
    ensures
      var es := SenderEntries(s.senderKeyIndex, s.inner.senderKeys);
      forall k :: k in InsertSenders(es) ==> k in s.inner.senderKeys && InsertSenders(es)[k] == s.inner.senderKeys[k]
  {
    var index, stored := s.senderKeyIndex, s.inner.senderKeys;
    var es := SenderEntries(index, stored);
    SenderEntriesMeaning(p, index, stored);
    forall i | 0 <= i < |es|
      ensures (Address(es[i].sender), es[i].dist) in stored
      ensures es[i].record == stored[(Address(es[i].sender), es[i].dist)]
    {
      assert EntryStored(p, stored, index[i]);
    }
    SendersAgree(es, stored);
  }

  lemma AllSendersWritten(p: Parsers, s: Store, k: (string, Bytes))
    requires SenderKeysIndexed(p, s) && k in s.inner.senderKeys
    ensures k in InsertSenders(SenderEntries(s.senderKeyIndex, s.inner.senderKeys))
  {
    var index := s.senderKeyIndex;
    var es := SenderEntries(index, s.inner.senderKeys);
    SenderEntriesMeaning(p, index, s.inner.senderKeys);
    assert Indexed(index, k);
    var e :| e in index && (Address(e.0), e.1) == k;
    var i :| 0 <= i < |index| && index[i] == e;
    SendersStored(es);
    assert es[i] in es;
  }

  lemma SendersRestored(p: Parsers, s: Store)
    requires SenderKeysIndexed(p, s)
    ensures InsertSenders(SenderEntries(s.senderKeyIndex, s.inner.senderKeys)) == s.inner.senderKeys
    ensures SenderIndex(SenderEntries(s.senderKeyIndex, s.inner.senderKeys)) == s.senderKeyIndex
  {
    WrittenSendersAgree(p, s);
    var m := InsertSenders(SenderEntries(s.senderKeyIndex, s.inner.senderKeys));
    forall k | k in s.inner.senderKeys ensures k in m { AllSendersWritten(p, s, k); }
    assert m == s.inner.senderKeys;
    IndexRestored(p, s);
  }

  lemma IndexRestored(p: Parsers, s: Store)
    requires SenderKeysIndexed(p, s)
    ensures SenderIndex(SenderEntries(s.senderKeyIndex, s.inner.senderKeys)) == s.senderKeyIndex
  {
    SenderEntriesMeaning(p, s.senderKeyIndex, s.inner.senderKeys);
  }

  /** The sessions a snapshot carries: the non-empty ones. */
  function LiveSessions(sessions: map<string, Bytes>): map<string, Bytes> {
    map a | a in sessions && sessions[a] != [] :: sessions[a]
  }

  lemma {:induction false} OnlyNamedAreStored(p: Parsers, es: seq<SessionEntry>)
    ensures forall a :: a in LoadSessions(p, es).stored ==> exists e :: e in es && Address(e.peer) == a
    decreases |es|
  {
    if es != [] {
      var front, last := es[..|es| - 1], es[|es| - 1];
      assert es == front + [last];
      OnlyNamedAreStored(p, front);
      forall a | a in LoadSessions(p, es).stored ensures exists e :: e in es && Address(e.peer) == a {
        if a == Address(last.peer) {
          assert last in es;
        } else {
          assert a in LoadSessions(p, front).stored;
          var e :| e in front && Address(e.peer) == a;
          assert e in es;
        }
      }
    }
  }

  /** A listed peer with a live session decodes; hex addresses do not collide. */
  lemma LivePeerDecodes(p: Parsers, s: Store, q: Bytes)
    requires SessionsListed(p, s)
    requires Address(q) in s.inner.sessions && s.inner.sessions[Address(q)] != []
    ensures p.identityKey(q).Some? && q in s.peers && Canonical(p.session, s.inner.sessions[Address(q)])
  {
    var q' :| q' in s.peers && Address(q') == Address(q) && p.identityKey(q').Some?;
    Hex.LowerInjective(q', q);
  }

  lemma {:induction false} LastOfAgreeing(p: Parsers, es: seq<SessionEntry>, q: Bytes, raw: Bytes)
    requires (exists e :: e in es && e.peer == q) && forall e :: e in es && e.peer == q ==> e.record == raw
    ensures LastSession(p, es, q) == p.session(raw)
    decreases |es|
  {
    var front, last := es[..|es| - 1], es[|es| - 1];
    assert es == front + [last];
    if last.peer != q {
      var e :| e in es && e.peer == q;
      assert e in front;
      LastOfAgreeing(p, front, q, raw);
    } else {
      assert last in es;
    }
  }

  /** Every record written for a store with listed sessions is sound. */
  lemma NothingSkipped(p: Parsers, s: Store)
    requires SessionsListed(p, s)
    ensures LoadSessions(p, SessionEntries(s.peers, s.inner.sessions)).skipped == {}
  {
    var es := SessionEntries(s.peers, s.inner.sessions);
    SessionEntriesMeaning(s.peers, s.inner.sessions);
    SkippedAreDamaged(p, es);
    forall e | e in es ensures !Damaged(p, e) { LivePeerDecodes(p, s, e.peer); }
  }

  lemma OnlyLiveStored(p: Parsers, s: Store, a: string)
    requires a in LoadSessions(p, SessionEntries(s.peers, s.inner.sessions)).stored
    ensures a in LiveSessions(s.inner.sessions)
  {
    var es := SessionEntries(s.peers, s.inner.sessions);
    SessionEntriesMeaning(s.peers, s.inner.sessions);
    OnlyNamedAreStored(p, es);
    var e :| e in es && Address(e.peer) == a;
  }

  lemma LiveIsStored(p: Parsers, s: Store, a: string)
    requires SessionsListed(p, s) && a in LiveSessions(s.inner.sessions)
    ensures
      var r := LoadSessions(p, SessionEntries(s.peers, s.inner.sessions));
      a in r.stored && r.stored[a] == s.inner.sessions[a]
  {
    var es := SessionEntries(s.peers, s.inner.sessions);
    SessionEntriesMeaning(s.peers, s.inner.sessions);
    NothingSkipped(p, s);
    var q :| q in s.peers && Address(q) == a && p.identityKey(q).Some?;
    var e := SessionEntry(q, s.inner.sessions[a]);
    assert e in es;
    UnskippedAreStored(p, es, q);
    LastOfAgreeing(p, es, q, e.record);
  }

  lemma SessionsRestored(p: Parsers, s: Store)
    requires SessionsListed(p, s)
    ensures
      var r := LoadSessions(p, SessionEntries(s.peers, s.inner.sessions));
      r.skipped == {} && r.stored == LiveSessions(s.inner.sessions)
  {
    var r := LoadSessions(p, SessionEntries(s.peers, s.inner.sessions));
    NothingSkipped(p, s);
    forall a | a in r.stored ensures a in LiveSessions(s.inner.sessions) { OnlyLiveStored(p, s, a); }
    forall a | a in LiveSessions(s.inner.sessions) ensures a in r.stored && r.stored[a] == s.inner.sessions[a] {
      LiveIsStored(p, s, a);
    }
  }

  lemma RetainNothing(peers: seq<Bytes>)
    ensures Retain(peers, {}) == peers
  {
    if peers != [] {
      RetainNothing(peers[..|peers| - 1]);
      assert peers == peers[..|peers| - 1] + [peers[|peers| - 1]];
    }
  }

  /** `r` is `s` reloaded: every field back, sessions minus the empty ones, live peers pinned. */
  ghost predicate Reloaded(p: Parsers, s: Store, r: Store) {
    && r == s.(inner := s.inner.(sessions := LiveSessions(s.inner.sessions), pinned := r.inner.pinned))
    && (forall q :: q in s.peers && Address(q) in r.inner.sessions ==>
          Address(q) in r.inner.pinned && p.identityKey(q) == Some(r.inner.pinned[Address(q)]))
  }

  ghost function WithoutSenderKeys(s: Store): Store {
    s.(inner := s.inner.(senderKeys := map[]), senderKeyIndex := [])
  }

  lemma LivePeersPinned(p: Parsers, s: Store, q: Bytes)
    requires SessionsListed(p, s) && q in s.peers && Address(q) in LiveSessions(s.inner.sessions)
    ensures
      var r := LoadSessions(p, SessionEntries(s.peers, s.inner.sessions));
      Address(q) in r.pinned && p.identityKey(q) == Some(r.pinned[Address(q)])
  {
    var es := SessionEntries(s.peers, s.inner.sessions);
    SessionEntriesMeaning(s.peers, s.inner.sessions);
    assert SessionEntry(q, s.inner.sessions[Address(q)]) in es;
    SessionsRestored(p, s);
    UnskippedAreStored(p, es, q);
  }

  ghost function WithTail(s: Store, tail: Tail): Store {
    s.(inner := s.inner.(senderKeys := InsertSenders(tail.senders)), certificate := tail.certificate,
       senderKeyIndex := SenderIndex(tail.senders))
  }

  lemma BodyRestored(p: Parsers, s: Store, o: Orders, tail: Tail)
    requires Serializable(p, s, o)
    ensures Reloaded(p, WithTail(s, tail), Assemble(p, WrittenBody(p, s, o), tail))
  {
    var r := Assemble(p, WrittenBody(p, s, o), tail);
    EnumerationRestores(o.preKeys, s.inner.preKeys);
    EnumerationRestores(o.signedPreKeys, s.inner.signedPreKeys);
    EnumerationRestores(o.kyberPreKeys, s.inner.kyberPreKeys);
    SessionsRestored(p, s);
    RetainNothing(s.peers);
    forall q | q in s.peers && Address(q) in r.inner.sessions
      ensures Address(q) in r.inner.pinned && p.identityKey(q) == Some(r.inner.pinned[Address(q)])
    {
      LivePeersPinned(p, s, q);
    }
  }

  lemma RegroupLast(a: Bytes, b: Bytes, c: Bytes, d: Bytes)
    ensures a + b + (c + d) == a + b + c + d
  {
  }

  lemma VersionByte(version: byte, written: Bytes, trailing: Bytes)
    ensures ReadU8([version] + written + trailing) == Got(version, written + trailing)
  {
    assert [version] + written + trailing == [version] + (written + trailing);
    ReadBytesOf([version], written + trailing);
  }

  lemma LoadVersionOf(p: Parsers, version: byte, buf: Bytes, body: Body, trailing: Bytes, tail: Tail, rest: Bytes)
    requires ReadBody(p, buf) == Got(body, trailing) && ReadTail(p, version, trailing) == Got(tail, rest)
    ensures LoadVersion(p, version, buf) == Some(Assemble(p, body, tail))
  {
  }

  /** A version byte, a body and a tail that read back load as their assembly. */
  lemma LoadOf(p: Parsers, version: byte, written: Bytes, body: Body, trailing: Bytes, tail: Tail, rest: Bytes)
    requires 1 <= version <= 3
    requires ReadBody(p, written + trailing) == Got(body, trailing) && ReadTail(p, version, trailing) == Got(tail, rest)
    ensures Load(p, [version] + written + trailing) == Some(Assemble(p, body, tail))
  {
    VersionByte(version, written, trailing);
    LoadVersionOf(p, version, written + trailing, body, trailing, tail, rest);
  }

  lemma ReadCertificateOf(p: Parsers, s: Store, version: byte, rest: Bytes)
    requires Inv(p, s) && Fits(s) && version >= 2
    ensures ReadCertificate(p, version, CertificateLayout(s) + rest) == Got(s.certificate, rest)
  {
    ReadBlob32Of(if s.certificate.Some? then s.certificate.value else [], rest);
  }

  lemma ReadTailOf(p: Parsers, s: Store)
    requires Inv(p, s) && Fits(s)
    ensures ReadTail(p, 3, CertificateLayout(s) + SenderKeyLayout(p, s))
         == Got(Tail(s.certificate, SenderEntries(s.senderKeyIndex, s.inner.senderKeys)), [])
  {
    ReadCertificateOf(p, s, 3, SenderKeyLayout(p, s));
    ReadSendersOf(p, s);
  }

  lemma ReadSendersOf(p: Parsers, s: Store)
    requires Inv(p, s) && Fits(s)
    ensures ReadSenders(p, 3, SenderKeyLayout(p, s)) == Got(SenderEntries(s.senderKeyIndex, s.inner.senderKeys), [])
  {
    SendersFit(p, s);
    SendersOf(p.senderKey, SenderEntries(s.senderKeyIndex, s.inner.senderKeys), []);
    assert SenderKeyLayout(p, s) + [] == SenderKeyLayout(p, s);
  }

  lemma LoadWritten(p: Parsers, version: byte, s: Store, o: Orders, trailing: Bytes, tail: Tail, rest: Bytes)
    requires Serializable(p, s, o) && 1 <= version <= 3 && ReadTail(p, version, trailing) == Got(tail, rest)
    ensures
      var r := Load(p, [version] + BodyLayout(p, s, o) + trailing);
      r.Some? && Reloaded(p, WithTail(s, tail), r.value)
  {
    ReadBodyOf(p, s, o, trailing);
    LoadOf(p, version, BodyLayout(p, s, o), WrittenBody(p, s, o), trailing, tail, rest);
    BodyRestored(p, s, o, tail);
  }

  /** Loading a snapshot of a reachable store succeeds and restores identity, registration id, id
      counters, peers, all three prekey maps, every non-empty session, the certificate and all
      sender keys, whatever order the key ids were enumerated in. */
  lemma SnapshotRoundTrip(p: Parsers, s: Store, o: Orders)
    requires Serializable(p, s, o)
    ensures Load(p, Layout(p, s, o)).Some? && Reloaded(p, s, Load(p, Layout(p, s, o)).value)
  {
    var body, c, k := BodyLayout(p, s, o), CertificateLayout(s), SenderKeyLayout(p, s);
    RegroupLast([STORE_VERSION], body, c, k);
    ReadTailOf(p, s);
    var tail := Tail(s.certificate, SenderEntries(s.senderKeyIndex, s.inner.senderKeys));
    LoadWritten(p, STORE_VERSION, s, o, c + k, tail, []);
    SendersRestored(p, s);
  }

  lemma ReadSecondTail(p: Parsers, s: Store)
    requires Inv(p, s) && Fits(s)
    ensures ReadTail(p, 2, CertificateLayout(s)) == Got(Tail(s.certificate, []), [])
  {
    ReadCertificateOf(p, s, 2, []);
    assert CertificateLayout(s) + [] == CertificateLayout(s);
  }

  lemma EmptyTail(s: Store, certificate: Option<Bytes>)
    ensures WithTail(s, Tail(certificate, [])) == WithoutSenderKeys(s).(certificate := certificate)
  {
    assert SenderIndex([]) == [];
  }

  /** The version-2 layout loads as the same store without sender keys. */
  lemma SecondVersionLoads(p: Parsers, s: Store, o: Orders)
    requires Serializable(p, s, o)
    ensures Load(p, LayoutV2(p, s, o)).Some? && Reloaded(p, WithoutSenderKeys(s), Load(p, LayoutV2(p, s, o)).value)
  {
    ReadSecondTail(p, s);
    EmptyTail(s, s.certificate);
    LoadWritten(p, 2, s, o, CertificateLayout(s), Tail(s.certificate, []), []);
  }

  /** The version-1 layout loads as the same store without certificate and sender keys. */
  lemma FirstVersionLoads(p: Parsers, s: Store, o: Orders)
    requires Serializable(p, s, o)
    ensures Load(p, LayoutV1(p, s, o)).Some?
         && Reloaded(p, WithoutSenderKeys(s).(certificate := None), Load(p, LayoutV1(p, s, o)).value)
  {
    EmptyTail(s, None);
    LoadWritten(p, 1, s, o, [], Tail(None, []), []);
    var v1 := LayoutV1(p, s, o);
    assert v1 + [] == v1;
  }

  /** A reloaded store satisfies the invariant again. */
  lemma ReloadInv(p: Parsers, s: Store, r: Store)
    requires Inv(p, s) && Reloaded(p, s, r)
    ensures Inv(p, r)
  {
    assert r.peers == s.peers && r.senderKeyIndex == s.senderKeyIndex && r.inner.senderKeys == s.inner.senderKeys;
    forall a | a in r.inner.sessions && r.inner.sessions[a] != []
      ensures Canonical(p.session, r.inner.sessions[a]) && ListedAt(p, r.peers, a)
    {
      assert a in s.inner.sessions;
    }
  }
}
