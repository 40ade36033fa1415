/** What each operation of the device store means to its caller: what it adds, where, and what it
    leaves alone; and that every pinned identity is the one its address names. */
module DeviceLaws {
  import opened Wire
  import opened DeviceStore
  import Hex
  import PreKeyBundle

  // ----- peers by identity, not by address text -----

  ghost function SessionOf(s: Store, q: Bytes): Option<Bytes> {
    if Address(q) in s.inner.sessions then Some(s.inner.sessions[Address(q)]) else None
  }

  ghost function PinOf(s: Store, q: Bytes): Option<Bytes> {
    if Address(q) in s.inner.pinned then Some(s.inner.pinned[Address(q)]) else None
  }

  /** A session record that is not the empty one. */
  ghost predicate Live(s: Store, q: Bytes) { SessionOf(s, q).Some? && SessionOf(s, q).value != [] }

  /** Sessions and pins of everyone but `peer` are as they were. */
  ghost predicate OthersUntouched(s: Store, s': Store, peer: Bytes) {
    forall q :: q != peer ==> SessionOf(s', q) == SessionOf(s, q) && PinOf(s', q) == PinOf(s, q)
  }

  ghost predicate SamePreKeys(s: Store, s': Store) {
    && s'.inner.preKeys == s.inner.preKeys && s'.inner.signedPreKeys == s.inner.signedPreKeys
    && s'.inner.kyberPreKeys == s.inner.kyberPreKeys
    && s'.nextPreKeyId == s.nextPreKeyId && s'.nextSignedPreKeyId == s.nextSignedPreKeyId
    && s'.nextKyberPreKeyId == s.nextKyberPreKeyId
  }

  ghost predicate SameIdentity(s: Store, s': Store) {
    s'.inner.identity == s.inner.identity && s'.inner.registrationId == s.inner.registrationId
  }

  ghost predicate SameSenderKeys(s: Store, s': Store) {
    s'.inner.senderKeys == s.inner.senderKeys && s'.senderKeyIndex == s.senderKeyIndex
  }

  /** Everything but peers, sessions and pins. */
  ghost predicate SameRest(s: Store, s': Store) {
    SamePreKeys(s, s') && SameIdentity(s, s') && SameSenderKeys(s, s') && s'.certificate == s.certificate
  }

  lemma OnlyAtPeer(peer: Bytes, q: Bytes)
    requires q != peer
    ensures Address(q) != Address(peer)
  {
    if Address(q) == Address(peer) { Hex.LowerInjective(q, peer); }
  }

  // ----- sessions -----

  /** What a successful initiation leaves: that session stored, that identity pinned, the peer listed,
      and nobody else's session or pin moved. */
  ghost predicate Initiated(s: Store, s': Store, peer: Bytes, identity: Bytes, session: Bytes) {
    && SessionOf(s', peer) == Some(session) && PinOf(s', peer) == Some(identity)
    && (forall q :: q in s'.peers <==> q in s.peers || (q == peer && |peer| <= U16_MAX))
    && OthersUntouched(s, s', peer) && SameRest(s, s')
  }

  lemma InitiateWithMeaning(
      p: Parsers, s: Store, peer: Bytes, bundle: Option<PreKeyBundle.Bundle>, established: Option<Bytes>)
    ensures
      var r := InitiateWith(p, s, peer, bundle, established);
      && (r.Some? <==> bundle.Some? && p.identityKey(peer) == Some(bundle.value.identity) && established.Some?)
      && (r.Some? ==> Initiated(s, r.value, peer, bundle.value.identity, established.value))
  {
    forall q | q != peer ensures Address(q) != Address(peer) { OnlyAtPeer(peer, q); }
  }

  /** A session is initiated exactly when the bundle decodes to the identity we asked for and libsignal
      accepts it. */
  lemma InitiateMeaning(
      p: Parsers, k: PreKeyBundle.KeyParsers, s: Store, peer: Bytes, bundle: Bytes, established: Option<Bytes>)
    ensures
      var r := InitiateSession(p, k, s, peer, bundle, established);
      var b := PreKeyBundle.Decode(k, bundle);
      && (r.Some? <==> b.Some? && p.identityKey(peer) == Some(b.value.identity) && established.Some?)
      && (r.Some? ==> Initiated(s, r.value, peer, b.value.identity, established.value))
  {
    InitiateWithMeaning(p, s, peer, PreKeyBundle.Decode(k, bundle), established);
  }

  /** Registering lists the identity, once and last, if it fits its prefix. */
  lemma RegisterMeaning(s: Store, peer: Bytes)
    ensures
      var s' := RegisterPeer(s, peer);
      && (peer in s'.peers <==> peer in s.peers || |peer| <= U16_MAX)
      && s.peers <= s'.peers && (forall q :: q in s'.peers && q != peer ==> q in s.peers)
      && s' == s.(peers := s'.peers)
  {
  }

  /** Forgetting unlists the peer and leaves it no live session; everyone else stays listed, in order,
      with session and pin. */
  lemma ForgetMeaning(s: Store, peer: Bytes)
    ensures
      var s' := ForgetPeer(s, peer);
      && (forall q :: q in s'.peers <==> q in s.peers && q != peer)
      && !Live(s', peer) && PinOf(s', peer) == PinOf(s, peer)
      && OthersUntouched(s, s', peer) && SameRest(s, s')
  {
    RetainMembers(s.peers, {peer});
    forall q | q != peer ensures Address(q) != Address(peer) { OnlyAtPeer(peer, q); }
  }

  /** Encrypting needs a live session and replaces that one only. */
  lemma EncryptMeaning(s: Store, peer: Bytes, record: Bytes)
    ensures
      var r := EncryptTo(s, peer, record);
      && (r.Some? <==> Live(s, peer))
      && (r.Some? ==>
            && SessionOf(r.value, peer) == Some(record) && PinOf(r.value, peer) == PinOf(s, peer)
            && OthersUntouched(s, r.value, peer) && SameRest(s, r.value) && r.value.peers == s.peers)
  {
    forall q | q != peer ensures Address(q) != Address(peer) { OnlyAtPeer(peer, q); }
  }

  /** Decrypting stores the new session, pins the sender, and spends the one-time key it used: that key
      is gone, every other key is still there. */
  lemma DecryptMeaning(s: Store, sender: Bytes, record: Bytes, spent: Option<nat>)
    ensures
      var s' := DecryptFrom(s, sender, record, spent);
      && SessionOf(s', sender) == Some(record) && PinOf(s', sender) == Some(sender)
      && OthersUntouched(s, s', sender) && s'.peers == s.peers
      && (forall id :: id in s'.inner.preKeys <==> id in s.inner.preKeys && spent != Some(id))
      && (forall id :: id in s'.inner.preKeys ==> s'.inner.preKeys[id] == s.inner.preKeys[id])
      && SameRest(s, s'.(inner := s'.inner.(preKeys := s.inner.preKeys)))
  {
    forall q | q != sender ensures Address(q) != Address(sender) { OnlyAtPeer(sender, q); }
  }

  // ----- prekeys -----

  /** The id after `id` on the circle of non-zero 32-bit numbers. */
  lemma NextIdMeaning(id: nat)
    requires id <= U32_MAX
    ensures NextId(id) == if id == U32_MAX then 1 else id + 1
  {
  }

  /** Publishing files the three new keys under the ids the counters show, keeps every other key, and
      moves each counter to the next id. */
  lemma PublishMeaning(s: Store, preKey: Bytes, signed: Bytes, kyber: Bytes)
    requires s.nextPreKeyId <= U32_MAX && s.nextSignedPreKeyId <= U32_MAX && s.nextKyberPreKeyId <= U32_MAX
    ensures
      var s' := PublishBundle(s, preKey, signed, kyber);
      && Filed(s.inner.preKeys, s'.inner.preKeys, s.nextPreKeyId, preKey)
      && Filed(s.inner.signedPreKeys, s'.inner.signedPreKeys, s.nextSignedPreKeyId, signed)
      && Filed(s.inner.kyberPreKeys, s'.inner.kyberPreKeys, s.nextKyberPreKeyId, kyber)
      && s'.nextPreKeyId == NextId(s.nextPreKeyId) && s'.nextSignedPreKeyId == NextId(s.nextSignedPreKeyId)
      && s'.nextKyberPreKeyId == NextId(s.nextKyberPreKeyId)
      && (forall q :: SessionOf(s', q) == SessionOf(s, q) && PinOf(s', q) == PinOf(s, q))
      && SameIdentity(s, s') && SameSenderKeys(s, s') && s'.peers == s.peers && s'.certificate == s.certificate
  {
  }

  /** `key` is found under `id`, and every other id is as it was. */
  ghost predicate Filed(keys: map<nat, Bytes>, keys': map<nat, Bytes>, id: nat, key: Bytes) {
    && id in keys' && keys'[id] == key
    && (forall other :: other != id ==> (other in keys' <==> other in keys))
    && (forall other :: other != id && other in keys ==> keys'[other] == keys[other])
  }

  // ----- sender keys -----

  ghost function SenderKeyOf(s: Store, q: Bytes, dist: Bytes): Option<Bytes> {
    if (Address(q), dist) in s.inner.senderKeys then Some(s.inner.senderKeys[(Address(q), dist)]) else None
  }

  /** Installing a sender key stores it for that sender and id only, and names it in the index if the
      identity fits. */
  lemma InstallSenderMeaning(s: Store, sender: Bytes, dist: Bytes, record: Bytes)
    ensures
      var s' := InstallSenderKey(s, sender, dist, record);
      && SenderKeyOf(s', sender, dist) == Some(record)
      && (forall q, d :: (q, d) != (sender, dist) ==> SenderKeyOf(s', q, d) == SenderKeyOf(s, q, d))
      && (forall e :: e in s'.senderKeyIndex <==>
            e in s.senderKeyIndex || (e == (sender, dist) && |sender| <= U16_MAX))
      && s' == s.(inner := s.inner.(senderKeys := s'.inner.senderKeys), senderKeyIndex := s'.senderKeyIndex)
  {
    forall q, d | (q, d) != (sender, dist) ensures (Address(q), d) != (Address(sender), dist) {
      if Address(q) == Address(sender) { Hex.LowerInjective(q, sender); }
    }
  }

  /** Advancing a chain needs the chain. */
  lemma AdvanceSenderMeaning(s: Store, sender: Bytes, dist: Bytes, record: Bytes)
    ensures
      var r := AdvanceSenderKey(s, sender, dist, record);
      && (r.Some? <==> SenderKeyOf(s, sender, dist).Some?)
      && (r.Some? ==> r.value == InstallSenderKey(s, sender, dist, record))
  {
  }

  // ----- pins -----

  /** Whatever is pinned at a peer's address is that peer's own identity. */
  ghost predicate PinsMatch(p: Parsers, s: Store) {
    forall q :: PinOf(s, q).Some? ==> PinOf(s, q) == p.identityKey(q)
  }

  /** A step that moves at most one peer's pin, and moves it to that peer's identity. */
  lemma PinKeeps(p: Parsers, s: Store, s': Store, peer: Bytes)
    requires PinsMatch(p, s) && OthersUntouched(s, s', peer)
    requires PinOf(s', peer) == PinOf(s, peer) || PinOf(s', peer) == p.identityKey(peer)
    ensures PinsMatch(p, s')
  {
    forall q | PinOf(s', q).Some? ensures PinOf(s', q) == p.identityKey(q) {
      if q != peer { assert PinOf(s', q) == PinOf(s, q); }
    }
  }

  lemma SamePinsKeep(p: Parsers, s: Store, s': Store)
    requires PinsMatch(p, s) && s'.inner.pinned == s.inner.pinned
    ensures PinsMatch(p, s')
  {
    forall q | PinOf(s', q).Some? ensures PinOf(s', q) == p.identityKey(q) { assert PinOf(s, q) == PinOf(s', q); }
  }

  lemma InitiatePins(
      p: Parsers, k: PreKeyBundle.KeyParsers, s: Store, peer: Bytes, bundle: Bytes, established: Option<Bytes>)
    requires PinsMatch(p, s) && InitiateSession(p, k, s, peer, bundle, established).Some?
    ensures PinsMatch(p, InitiateSession(p, k, s, peer, bundle, established).value)
  {
    InitiateWithMeaning(p, s, peer, PreKeyBundle.Decode(k, bundle), established);
    PinKeeps(p, s, InitiateSession(p, k, s, peer, bundle, established).value, peer);
  }

  lemma DecryptPins(p: Parsers, s: Store, sender: Bytes, record: Bytes, spent: Option<nat>)
    requires PinsMatch(p, s) && Canonical(p.identityKey, sender)
    ensures PinsMatch(p, DecryptFrom(s, sender, record, spent))
  {
    DecryptMeaning(s, sender, record, spent);
    PinKeeps(p, s, DecryptFrom(s, sender, record, spent), sender);
  }
}
