/** The per-device store: libsignal's in-memory maps plus the two side indexes that stand in
    for the enumerators libsignal does not offer. */
module DeviceStore {
  import opened Wire
  import Hex
  import PreKeyBundle

  const DISTRIBUTION_ID_LEN := 16

  /** libsignal's record parsers.  A record is named by its canonical serialization: a parser
      maps any bytes it accepts to the canonical bytes of the record they denote. */
  datatype Parsers = Parsers(
    identityPair: Bytes -> Option<Bytes>,
    publicHalf: Bytes -> Bytes,
    identityKey: Bytes -> Option<Bytes>,
    preKey: Bytes -> Option<Bytes>,
    signedPreKey: Bytes -> Option<Bytes>,
    kyberPreKey: Bytes -> Option<Bytes>,
    session: Bytes -> Option<Bytes>,
    certificate: Bytes -> Option<Bytes>,
    senderKey: Bytes -> Option<Bytes>)

  /** libsignal's `InMemSignalProtocolStore`.  An empty session record is the empty byte string. */
  datatype Inner = Inner(
    identity: Bytes, registrationId: nat,
    preKeys: map<nat, Bytes>, signedPreKeys: map<nat, Bytes>, kyberPreKeys: map<nat, Bytes>,
    sessions: map<string, Bytes>, pinned: map<string, Bytes>,
    senderKeys: map<(string, Bytes), Bytes>)

  datatype Store = Store(
    inner: Inner,
    nextPreKeyId: nat, nextSignedPreKeyId: nat, nextKyberPreKeyId: nat,
    peers: seq<Bytes>,
    certificate: Option<Bytes>,
    senderKeyIndex: seq<(Bytes, Bytes)>)

  function Address(identity: Bytes): string { Hex.Lower(identity) }

  ghost predicate Canonical(parse: Bytes -> Option<Bytes>, record: Bytes) { parse(record) == Some(record) }

  ghost predicate AllCanonical(parse: Bytes -> Option<Bytes>, records: map<nat, Bytes>) {
    forall id :: id in records ==> id <= U32_MAX && Canonical(parse, records[id])
  }

  ghost predicate Distinct<T>(xs: seq<T>) {
    forall i, j :: 0 <= i < j < |xs| ==> xs[i] != xs[j]
  }

  // ----- what every run keeps -----

  /** Each address with a non-empty session belongs to a listed, decodable peer. */
  ghost predicate SessionsListed(p: Parsers, s: Store) {
    forall a :: a in s.inner.sessions && s.inner.sessions[a] != [] ==>
      Canonical(p.session, s.inner.sessions[a]) && ListedAt(p, s.peers, a)
  }

  ghost predicate ListedAt(p: Parsers, peers: seq<Bytes>, a: string) {
    exists q :: q in peers && Address(q) == a && p.identityKey(q).Some?
  }

  ghost predicate PeersWritable(s: Store) {
    Distinct(s.peers) && forall q :: q in s.peers ==> |q| <= U16_MAX
  }

  /** The index names exactly the stored sender keys. */
  ghost predicate SenderKeysIndexed(p: Parsers, s: Store) {
    && Distinct(s.senderKeyIndex)
    && (forall e :: e in s.senderKeyIndex ==> EntryStored(p, s.inner.senderKeys, e))
    && (forall k :: k in s.inner.senderKeys ==> Indexed(s.senderKeyIndex, k))
  }

  ghost predicate EntryStored(p: Parsers, stored: map<(string, Bytes), Bytes>, e: (Bytes, Bytes)) {
    && |e.0| <= U16_MAX && |e.1| == DISTRIBUTION_ID_LEN
    && (Address(e.0), e.1) in stored
    && stored[(Address(e.0), e.1)] != []
    && Canonical(p.senderKey, stored[(Address(e.0), e.1)])
  }

  ghost predicate Indexed(index: seq<(Bytes, Bytes)>, k: (string, Bytes)) {
    exists e :: e in index && (Address(e.0), e.1) == k
  }

  ghost predicate RecordsCanonical(p: Parsers, s: Store) {
    && Canonical(p.identityPair, s.inner.identity)
    && |p.publicHalf(s.inner.identity)| <= U16_MAX
    && s.inner.registrationId <= U32_MAX
    && s.nextPreKeyId <= U32_MAX && s.nextSignedPreKeyId <= U32_MAX && s.nextKyberPreKeyId <= U32_MAX
    && AllCanonical(p.preKey, s.inner.preKeys)
    && AllCanonical(p.signedPreKey, s.inner.signedPreKeys)
    && AllCanonical(p.kyberPreKey, s.inner.kyberPreKeys)
    && (s.certificate.Some? ==> s.certificate.value != [] && Canonical(p.certificate, s.certificate.value))
  }

  ghost predicate Inv(p: Parsers, s: Store) {
    SessionsListed(p, s) && PeersWritable(s) && SenderKeysIndexed(p, s) && RecordsCanonical(p, s)
  }

  // ----- operations -----

  function Fresh(identity: Bytes, registrationId: nat): Store {
    Store(Inner(identity, registrationId, map[], map[], map[], map[], map[], map[]),
          1, 1, 1, [], None, [])
  }

  /** u32 increment that skips zero on wrap-around. */
  function NextId(id: nat): (n: nat)
    requires id <= U32_MAX
    ensures 1 <= n <= U32_MAX && n != id
  {
    var n := (id + 1) % (U32_MAX + 1);
    if n == 0 then 1 else n
  }

  function PublishBundle(s: Store, preKey: Bytes, signed: Bytes, kyber: Bytes): Store
    requires s.nextPreKeyId <= U32_MAX && s.nextSignedPreKeyId <= U32_MAX && s.nextKyberPreKeyId <= U32_MAX
  {
    s.(inner := s.inner.(preKeys := s.inner.preKeys[s.nextPreKeyId := preKey],
                         signedPreKeys := s.inner.signedPreKeys[s.nextSignedPreKeyId := signed],
                         kyberPreKeys := s.inner.kyberPreKeys[s.nextKyberPreKeyId := kyber]),
       nextPreKeyId := NextId(s.nextPreKeyId),
       nextSignedPreKeyId := NextId(s.nextSignedPreKeyId),
       nextKyberPreKeyId := NextId(s.nextKyberPreKeyId))
  }

  function RegisterPeer(s: Store, peer: Bytes): Store {
    if |peer| > U16_MAX || peer in s.peers then s else s.(peers := s.peers + [peer])
  }

  function Retain(peers: seq<Bytes>, dropped: set<Bytes>): seq<Bytes> {
    if peers == [] then []
    else
      var rest := Retain(peers[..|peers| - 1], dropped);
      if peers[|peers| - 1] in dropped then rest else rest + [peers[|peers| - 1]]
  }

  function ForgetPeer(s: Store, peer: Bytes): Store {
    s.(peers := Retain(s.peers, {peer}), inner := s.inner.(sessions := s.inner.sessions[Address(peer) := []]))
  }

  /** A libsignal call that stored `record` as the session of `peer` and pinned its identity. */
  function StoreSession(s: Store, peer: Bytes, identity: Bytes, record: Bytes): Store {
    s.(inner := s.inner.(sessions := s.inner.sessions[Address(peer) := record],
                         pinned := s.inner.pinned[Address(peer) := identity]))
  }

  /** `established` is the session `process_prekey_bundle` stores, or none when it fails. */
  function InitiateSession(p: Parsers, k: PreKeyBundle.KeyParsers, s: Store, peer: Bytes, bundle: Bytes,
                           established: Option<Bytes>): (r: Option<Store>)
  {
    InitiateWith(p, s, peer, PreKeyBundle.Decode(k, bundle), established)
  }

  function InitiateWith(p: Parsers, s: Store, peer: Bytes, bundle: Option<PreKeyBundle.Bundle>,
                        established: Option<Bytes>): (r: Option<Store>)
  {
    match bundle
    case None => None
    case Some(b) =>
      if p.identityKey(peer) != Some(b.identity) || established.None? then None
      else Some(RegisterPeer(StoreSession(s, peer, b.identity, established.value), peer))
  }

  function NoteSenderKey(s: Store, sender: Bytes, dist: Bytes): Store {
    if |sender| > U16_MAX || (sender, dist) in s.senderKeyIndex then s
    else s.(senderKeyIndex := s.senderKeyIndex + [(sender, dist)])
  }

  function StoreSenderKey(s: Store, sender: Bytes, dist: Bytes, record: Bytes): Store {
    s.(inner := s.inner.(senderKeys := s.inner.senderKeys[(Address(sender), dist) := record]))
  }

  /** Shared effect of `sender_key_distribution_create` (own identity) and `_process`. */
  function InstallSenderKey(s: Store, sender: Bytes, dist: Bytes, record: Bytes): Store {
    NoteSenderKey(StoreSenderKey(s, sender, dist, record), sender, dist)
  }

  /** `group_encrypt` and `group_decrypt` re-store an existing chain; without one libsignal errs. */
  function AdvanceSenderKey(s: Store, sender: Bytes, dist: Bytes, record: Bytes): Option<Store> {
    if (Address(sender), dist) in s.inner.senderKeys then Some(InstallSenderKey(s, sender, dist, record)) else None
  }

  function MintCertificate(s: Store, certificate: Bytes): Store { s.(certificate := Some(certificate)) }

  /** `message_encrypt` needs a non-empty session and replaces it. */
  function EncryptTo(s: Store, peer: Bytes, record: Bytes): Option<Store> {
    var a := Address(peer);
    if a in s.inner.sessions && s.inner.sessions[a] != []
    then Some(s.(inner := s.inner.(sessions := s.inner.sessions[a := record])))
    else None
  }

  /** A successful `message_decrypt`: the sender's session moves on and a one-time key may be spent. */
  function DecryptFrom(s: Store, sender: Bytes, record: Bytes, spent: Option<nat>): Store {
    var s' := StoreSession(s, sender, sender, record);
    if spent.None? then s' else s'.(inner := s'.inner.(preKeys := s'.inner.preKeys - {spent.value}))
  }

  // ----- the object -----

  class Device {
    var inner: Inner
    var nextPreKeyId: nat
    var nextSignedPreKeyId: nat
    var nextKyberPreKeyId: nat
    var peers: seq<Bytes>
    var certificate: Option<Bytes>
    var senderKeyIndex: seq<(Bytes, Bytes)>

    ghost function Image(): Store
      reads this
    {
      Store(inner, nextPreKeyId, nextSignedPreKeyId, nextKyberPreKeyId, peers, certificate, senderKeyIndex)
    }

    constructor (identity: Bytes, registrationId: nat)
      ensures Image() == Fresh(identity, registrationId)
    {
      inner := Inner(identity, registrationId, map[], map[], map[], map[], map[], map[]);
      nextPreKeyId, nextSignedPreKeyId, nextKyberPreKeyId := 1, 1, 1;
      peers, certificate, senderKeyIndex := [], None, [];
    }

    /** Track an identity once; an identity too long for its snapshot prefix is dropped here. */
    method Register(peer: Bytes)
      modifies this
      ensures Image() == RegisterPeer(old(Image()), peer)
    {
      if |peer| > U16_MAX { return; }
      if peer !in peers {
        peers := peers + [peer];
      }
    }

    method Forget(peer: Bytes)
      modifies this
      ensures Image() == ForgetPeer(old(Image()), peer)
    {
      var kept: seq<Bytes> := [];
      for i := 0 to |peers|
        invariant Image() == old(Image())
        invariant kept == Retain(peers[..i], {peer})
      {
        assert peers[..i + 1][..i] == peers[..i];
        if peers[i] != peer { kept := kept + [peers[i]]; }
      }
      assert peers[..|peers|] == peers;
      peers := kept;
      inner := inner.(sessions := inner.sessions[Address(peer) := []]);
    }

    method Initiate(p: Parsers, k: PreKeyBundle.KeyParsers, peer: Bytes, bundle: Bytes, established: Option<Bytes>)
      returns (ok: bool)
      modifies this
      ensures match InitiateSession(p, k, old(Image()), peer, bundle, established)
        case None => !ok && Image() == old(Image())
        case Some(s) => ok && Image() == s
    {
      var decoded := PreKeyBundle.DecodeBundle(k, bundle);
      if decoded.None? { return false; }
      if p.identityKey(peer) != Some(decoded.value.identity) || established.None? { return false; }
      inner := inner.(sessions := inner.sessions[Address(peer) := established.value],
                      pinned := inner.pinned[Address(peer) := decoded.value.identity]);
      Register(peer);
      ok := true;
    }

    method InstallSender(sender: Bytes, dist: Bytes, record: Bytes)
      modifies this
      ensures Image() == InstallSenderKey(old(Image()), sender, dist, record)
    {
      inner := inner.(senderKeys := inner.senderKeys[(Address(sender), dist) := record]);
      if |sender| > U16_MAX { return; }
      if (sender, dist) !in senderKeyIndex {
        senderKeyIndex := senderKeyIndex + [(sender, dist)];
      }
    }

    method Publish(preKey: Bytes, signed: Bytes, kyber: Bytes)
      requires nextPreKeyId <= U32_MAX && nextSignedPreKeyId <= U32_MAX && nextKyberPreKeyId <= U32_MAX
      modifies this
      ensures Image() == PublishBundle(old(Image()), preKey, signed, kyber)
    {
      var id := nextPreKeyId;
      nextPreKeyId := NextId(nextPreKeyId);
      inner := inner.(preKeys := inner.preKeys[id := preKey]);
      id := nextSignedPreKeyId;
      nextSignedPreKeyId := NextId(nextSignedPreKeyId);
      inner := inner.(signedPreKeys := inner.signedPreKeys[id := signed]);
      id := nextKyberPreKeyId;
      nextKyberPreKeyId := NextId(nextKyberPreKeyId);
      inner := inner.(kyberPreKeys := inner.kyberPreKeys[id := kyber]);
    }
  }

  // ----- each operation keeps the invariant -----

  lemma FreshInv(p: Parsers, identity: Bytes, registrationId: nat)
    requires Canonical(p.identityPair, identity) && |p.publicHalf(identity)| <= U16_MAX && registrationId <= U32_MAX
    ensures Inv(p, Fresh(identity, registrationId))
  {
  }

  lemma ListedMonotone(p: Parsers, peers: seq<Bytes>, more: seq<Bytes>, a: string)
    requires ListedAt(p, peers, a) && forall q :: q in peers ==> q in more
    ensures ListedAt(p, more, a)
  {
    var q :| q in peers && Address(q) == a && p.identityKey(q).Some?;
    assert q in more;
  }

  lemma PublishInv(p: Parsers, s: Store, preKey: Bytes, signed: Bytes, kyber: Bytes)
    requires Inv(p, s)
    requires Canonical(p.preKey, preKey) && Canonical(p.signedPreKey, signed) && Canonical(p.kyberPreKey, kyber)
    ensures Inv(p, PublishBundle(s, preKey, signed, kyber))
  {
    var s' := PublishBundle(s, preKey, signed, kyber);
    assert s'.inner.sessions == s.inner.sessions && s'.peers == s.peers;
    assert s'.inner.senderKeys == s.inner.senderKeys && s'.senderKeyIndex == s.senderKeyIndex;
  }

  lemma RegisterInv(p: Parsers, s: Store, peer: Bytes)
    requires Inv(p, s)
    ensures Inv(p, RegisterPeer(s, peer))
  {
    var s' := RegisterPeer(s, peer);
    forall a | a in s.inner.sessions && s.inner.sessions[a] != [] ensures ListedAt(p, s'.peers, a) {
      ListedMonotone(p, s.peers, s'.peers, a);
    }
  }

  lemma {:induction false} RetainMembers(peers: seq<Bytes>, dropped: set<Bytes>)
    ensures forall q :: q in Retain(peers, dropped) <==> q in peers && q !in dropped
    ensures Distinct(peers) ==> Distinct(Retain(peers, dropped))
    decreases |peers|
  {
    if peers != [] {
      var front, last := peers[..|peers| - 1], peers[|peers| - 1];
      RetainMembers(front, dropped);
      assert peers == front + [last];
      forall q ensures q in Retain(peers, dropped) <==> q in peers && q !in dropped {
        assert q in peers <==> q in front || q == last;
      }
      if Distinct(peers) {
        assert last !in front;
        assert last !in Retain(front, dropped);
      }
    }
  }

  lemma ForgetInv(p: Parsers, s: Store, peer: Bytes)
    requires Inv(p, s)
    ensures Inv(p, ForgetPeer(s, peer)) && peer !in ForgetPeer(s, peer).peers
  {
    var s' := ForgetPeer(s, peer);
    RetainMembers(s.peers, {peer});
    forall a | a in s'.inner.sessions && s'.inner.sessions[a] != [] ensures ListedAt(p, s'.peers, a) {
      var q :| q in s.peers && Address(q) == a && p.identityKey(q).Some?;
      assert q != peer;
    }
  }

  lemma StoreSessionInv(p: Parsers, s: Store, peer: Bytes, identity: Bytes, record: Bytes)
    requires Inv(p, s)
    requires peer in s.peers && p.identityKey(peer).Some? && Canonical(p.session, record)
    ensures Inv(p, StoreSession(s, peer, identity, record))
  {
    var s' := StoreSession(s, peer, identity, record);
    assert s'.peers == s.peers && ListedAt(p, s'.peers, Address(peer));
  }

  lemma InitiateInv(
      p: Parsers, k: PreKeyBundle.KeyParsers, s: Store, peer: Bytes, bundle: Bytes, established: Option<Bytes>)
    requires Inv(p, s) && (established.Some? ==> Canonical(p.session, established.value))
    requires p.identityKey(peer).Some? ==> |peer| <= U16_MAX
    requires InitiateSession(p, k, s, peer, bundle, established).Some?
    ensures Inv(p, InitiateSession(p, k, s, peer, bundle, established).value)
    ensures peer in InitiateSession(p, k, s, peer, bundle, established).value.peers
  {
    var b := PreKeyBundle.Decode(k, bundle).value;
    var first := RegisterPeer(s, peer);
    RegisterInv(p, s, peer);
    StoreSessionInv(p, first, peer, b.identity, established.value);
    assert RegisterPeer(StoreSession(s, peer, b.identity, established.value), peer)
        == StoreSession(first, peer, b.identity, established.value);
  }

  lemma InstalledKeysAreIndexed(p: Parsers, s: Store, sender: Bytes, dist: Bytes, record: Bytes, k: (string, Bytes))
    requires SenderKeysIndexed(p, s) && |sender| <= U16_MAX
    requires k in InstallSenderKey(s, sender, dist, record).inner.senderKeys
    ensures Indexed(InstallSenderKey(s, sender, dist, record).senderKeyIndex, k)
  {
    var index := InstallSenderKey(s, sender, dist, record).senderKeyIndex;
    assert (sender, dist) in index;
    if k != (Address(sender), dist) {
      assert Indexed(s.senderKeyIndex, k);
      var e :| e in s.senderKeyIndex && (Address(e.0), e.1) == k;
      assert e in index;
    }
  }

  lemma IndexedKeysAreInstalled(p: Parsers, s: Store, sender: Bytes, dist: Bytes, record: Bytes, e: (Bytes, Bytes))
    requires SenderKeysIndexed(p, s) && |dist| == DISTRIBUTION_ID_LEN && record != [] && Canonical(p.senderKey, record)
    requires |sender| <= U16_MAX && e in InstallSenderKey(s, sender, dist, record).senderKeyIndex
    ensures EntryStored(p, InstallSenderKey(s, sender, dist, record).inner.senderKeys, e)
  {
    if e != (sender, dist) {
      assert EntryStored(p, s.inner.senderKeys, e);
    }
  }

  lemma InstallFittingSenderKey(p: Parsers, s: Store, sender: Bytes, dist: Bytes, record: Bytes)
    requires SenderKeysIndexed(p, s) && |dist| == DISTRIBUTION_ID_LEN && record != [] && Canonical(p.senderKey, record)
    requires |sender| <= U16_MAX
    ensures SenderKeysIndexed(p, InstallSenderKey(s, sender, dist, record))
  {
    var s' := InstallSenderKey(s, sender, dist, record);
    forall k | k in s'.inner.senderKeys ensures Indexed(s'.senderKeyIndex, k) {
      InstalledKeysAreIndexed(p, s, sender, dist, record, k);
    }
    forall e | e in s'.senderKeyIndex ensures EntryStored(p, s'.inner.senderKeys, e) {
      IndexedKeysAreInstalled(p, s, sender, dist, record, e);
    }
  }

  lemma OversizedSenderKeyIsNotIndexed(p: Parsers, s: Store, sender: Bytes, dist: Bytes, record: Bytes)
    requires Inv(p, s) && |sender| > U16_MAX
    ensures !Indexed(InstallSenderKey(s, sender, dist, record).senderKeyIndex, (Address(sender), dist))
  {
    forall e | e in s.senderKeyIndex ensures (Address(e.0), e.1) != (Address(sender), dist) {
      assert EntryStored(p, s.inner.senderKeys, e);
      if Address(e.0) == Address(sender) {
        Hex.LowerInjective(e.0, sender);
      }
    }
  }

  /** Exactly when installing a sender key keeps index and store in agreement: the identity must
      fit the snapshot prefix, or the key is stored without being indexed and lost on reload. */
  lemma InstallSenderKeyInv(p: Parsers, s: Store, sender: Bytes, dist: Bytes, record: Bytes)
    requires Inv(p, s) && |dist| == DISTRIBUTION_ID_LEN && record != [] && Canonical(p.senderKey, record)
    ensures Inv(p, InstallSenderKey(s, sender, dist, record)) <==> |sender| <= U16_MAX
  {
    var s' := InstallSenderKey(s, sender, dist, record);
    if |sender| <= U16_MAX {
      InstallFittingSenderKey(p, s, sender, dist, record);
    } else {
      OversizedSenderKeyIsNotIndexed(p, s, sender, dist, record);
      assert (Address(sender), dist) in s'.inner.senderKeys;
    }
  }

  lemma AdvanceSenderKeyInv(p: Parsers, s: Store, sender: Bytes, dist: Bytes, record: Bytes)
    requires Inv(p, s) && record != [] && Canonical(p.senderKey, record)
    requires AdvanceSenderKey(s, sender, dist, record).Some?
    ensures Inv(p, AdvanceSenderKey(s, sender, dist, record).value)
    ensures AdvanceSenderKey(s, sender, dist, record).value.senderKeyIndex == s.senderKeyIndex
  {
    assert Indexed(s.senderKeyIndex, (Address(sender), dist));
    var e :| e in s.senderKeyIndex && (Address(e.0), e.1) == (Address(sender), dist);
    Hex.LowerInjective(e.0, sender);
    assert EntryStored(p, s.inner.senderKeys, e);
    InstallSenderKeyInv(p, s, sender, dist, record);
  }

  lemma EncryptInv(p: Parsers, s: Store, peer: Bytes, record: Bytes)
    requires Inv(p, s) && Canonical(p.session, record) && EncryptTo(s, peer, record).Some?
    ensures Inv(p, EncryptTo(s, peer, record).value) && peer in s.peers
  {
    var a := Address(peer);
    assert ListedAt(p, s.peers, a);
    var q :| q in s.peers && Address(q) == a && p.identityKey(q).Some?;
    Hex.LowerInjective(q, peer);
    var s' := EncryptTo(s, peer, record).value;
    assert s'.peers == s.peers;
  }

  lemma DecryptInv(p: Parsers, s: Store, sender: Bytes, record: Bytes, spent: Option<nat>)
    requires Inv(p, s) && sender in s.peers && p.identityKey(sender).Some? && Canonical(p.session, record)
    ensures Inv(p, DecryptFrom(s, sender, record, spent))
  {
    StoreSessionInv(p, s, sender, sender, record);
    var s', s'' := DecryptFrom(s, sender, record, spent), StoreSession(s, sender, sender, record);
    assert s'.peers == s''.peers && s'.inner.sessions == s''.inner.sessions;
    assert s'.inner.senderKeys == s''.inner.senderKeys && s'.senderKeyIndex == s''.senderKeyIndex;
  }

  lemma CertificateInv(p: Parsers, s: Store, certificate: Bytes)
    requires Inv(p, s) && certificate != [] && Canonical(p.certificate, certificate)
    ensures Inv(p, MintCertificate(s, certificate))
  {
    var s' := MintCertificate(s, certificate);
    assert s'.inner == s.inner && s'.peers == s.peers && s'.senderKeyIndex == s.senderKeyIndex;
  }
}
