/** Whole runs of the device store: any sequence of its public operations, libsignal outcomes
    included, with reloads from its own snapshot in between. */
module StoreRuns {
  import opened Wire
  import opened DeviceStore
  import opened Snapshot
  import opened SnapshotLaws
  import PreKeyBundle
  import Sealed = SealedSender
  import SealedLaws
  import opened DeviceLaws

  /** An operation together with the records libsignal hands back during it. */
  datatype Op =
    | Publish(preKey: Bytes, signed: Bytes, kyber: Bytes)
    | Initiate(peer: Bytes, bundle: Bytes, established: Option<Bytes>)
    | Register(peer: Bytes)
    | Forget(peer: Bytes)
    | CreateSender(dist: Bytes, record: Bytes)
    | ProcessSender(sender: Bytes, dist: Bytes, record: Bytes)
    | GroupEncrypt(dist: Bytes, record: Bytes)
    | GroupDecrypt(sender: Bytes, dist: Bytes, record: Bytes)
    | EnsureCertificate(now: nat)
    | Send(peer: Bytes, messageId: Bytes, plaintext: Bytes, now: nat)
    | Receive(sealed: Bytes, now: nat)
    | Reload(orders: Orders)

  /** What libsignal and the callers guarantee: records are canonical, decodable identities are
      short, a sender key comes from an authenticated identity.  Any bytes may be received. */
  ghost predicate Legal(p: Parsers, s: Store, op: Op) {
    match op
    case Publish(preKey, signed, kyber) =>
      Canonical(p.preKey, preKey) && Canonical(p.signedPreKey, signed) && Canonical(p.kyberPreKey, kyber)
    case Initiate(peer, _, established) =>
      && (established.Some? ==> Canonical(p.session, established.value))
      && (p.identityKey(peer).Some? ==> |peer| <= U16_MAX)
    case Register(_) => true
    case Forget(_) => true
    case CreateSender(dist, record) => |dist| == DISTRIBUTION_ID_LEN && record != [] && Canonical(p.senderKey, record)
    case ProcessSender(sender, dist, record) =>
      |sender| <= U16_MAX && |dist| == DISTRIBUTION_ID_LEN && record != [] && Canonical(p.senderKey, record)
    case GroupEncrypt(_, record) => record != [] && Canonical(p.senderKey, record)
    case GroupDecrypt(_, _, record) => record != [] && Canonical(p.senderKey, record)
    case EnsureCertificate(_) => true
    case Send(_, _, _, _) => true
    case Receive(_, _) => true
    case Reload(orders) => Serializable(p, s, orders)
  }

  function OrElse(r: Option<Store>, s: Store): Store { if r.Some? then r.value else s }

  /** The primitives and parsers every run is over. */
  datatype World = World(p: Parsers, k: PreKeyBundle.KeyParsers, c: Sealed.Crypto)

  /** One operation; a failing one leaves the store as far as it got. */
  ghost function Step(w: World, s: Store, op: Op): Store
    requires Inv(w.p, s) && Legal(w.p, s, op)
  {
    match op
    case Publish(preKey, signed, kyber) => PublishBundle(s, preKey, signed, kyber)
    case Initiate(peer, bundle, established) => OrElse(InitiateSession(w.p, w.k, s, peer, bundle, established), s)
    case Register(peer) => RegisterPeer(s, peer)
    case Forget(peer) => ForgetPeer(s, peer)
    case CreateSender(dist, record) => InstallSenderKey(s, w.p.publicHalf(s.inner.identity), dist, record)
    case ProcessSender(sender, dist, record) => InstallSenderKey(s, sender, dist, record)
    case GroupEncrypt(dist, record) => OrElse(AdvanceSenderKey(s, w.p.publicHalf(s.inner.identity), dist, record), s)
    case GroupDecrypt(sender, dist, record) => OrElse(AdvanceSenderKey(s, sender, dist, record), s)
    case EnsureCertificate(now) =>
      var ready := Sealed.EnsureCertificate(w.c, s, now);
      if ready.Some? then ready.value.0 else s
    case Send(peer, messageId, plaintext, now) => Sealed.SealSend(w.c, w.p, s, peer, messageId, plaintext, now).0
    case Receive(sealed, now) => Sealed.SealReceive(w.c, w.p, s, sealed, now).0
    case Reload(orders) => Reopened(w.p, s, orders)
  }

  ghost function Reopened(p: Parsers, s: Store, orders: Orders): Store
    requires Serializable(p, s, orders)
  {
    OrElse(Load(p, Layout(p, s, orders)), s)
  }

  lemma StepInv(w: World, s: Store, op: Op)
    requires Inv(w.p, s) && Legal(w.p, s, op) && Sealed.Lawful(w.c, w.p)
    ensures Inv(w.p, Step(w, s, op))
  {
    var p, k := w.p, w.k;
    match op {
      case Publish(preKey, signed, kyber) => PublishInv(p, s, preKey, signed, kyber);
      case Initiate(peer, bundle, established) =>
        if InitiateSession(p, k, s, peer, bundle, established).Some? {
          InitiateInv(p, k, s, peer, bundle, established);
        }
      case Register(peer) => RegisterInv(p, s, peer);
      case Forget(peer) => ForgetInv(p, s, peer);
      case CreateSender(dist, record) => InstallSenderKeyInv(p, s, p.publicHalf(s.inner.identity), dist, record);
      case ProcessSender(sender, dist, record) => InstallSenderKeyInv(p, s, sender, dist, record);
      case GroupEncrypt(dist, record) =>
        if AdvanceSenderKey(s, p.publicHalf(s.inner.identity), dist, record).Some? {
          AdvanceSenderKeyInv(p, s, p.publicHalf(s.inner.identity), dist, record);
        }
      case GroupDecrypt(sender, dist, record) =>
        if AdvanceSenderKey(s, sender, dist, record).Some? { AdvanceSenderKeyInv(p, s, sender, dist, record); }
      case EnsureCertificate(now) =>
        if Sealed.EnsureCertificate(w.c, s, now).Some? { Sealed.CertificateKeepsInv(w.c, p, s, now); }
      case Send(peer, messageId, plaintext, now) => Sealed.SendInv(w.c, p, s, peer, messageId, plaintext, now);
      case Receive(sealed, now) => Sealed.ReceiveInv(w.c, p, s, sealed, now);
      case Reload(orders) =>
        SnapshotRoundTrip(p, s, orders);
        ReloadInv(p, s, Load(p, Layout(p, s, orders)).value);
    }
  }

  /** Every pinned identity stays the one its address names. */
  lemma StepPins(w: World, s: Store, op: Op)
    requires Inv(w.p, s) && Legal(w.p, s, op) && Sealed.Lawful(w.c, w.p) && PinsMatch(w.p, s)
    ensures PinsMatch(w.p, Step(w, s, op))
  {
    match op {
      case Initiate(peer, bundle, established) =>
        if InitiateSession(w.p, w.k, s, peer, bundle, established).Some? {
          InitiatePins(w.p, w.k, s, peer, bundle, established);
        }
      case Receive(sealed, now) => SealedLaws.ReceivePins(w.c, w.p, s, sealed, now);
      case Reload(orders) => ReopenedPins(w.p, s, orders);
      case Send(peer, messageId, plaintext, now) =>
        SealedLaws.SendPins(w.c, w.p, s, peer, messageId, plaintext, now);
      case _ =>
        QuietStepPins(w, s, op);
        SamePinsKeep(w.p, s, Step(w, s, op));
    }
  }

  lemma QuietStepPins(w: World, s: Store, op: Op)
    requires Inv(w.p, s) && Legal(w.p, s, op)
    requires !op.Initiate? && !op.Receive? && !op.Reload? && !op.Send?
    ensures Step(w, s, op).inner.pinned == s.inner.pinned
  {
    match op {
      case CreateSender(dist, record) => InstallPins(s, w.p.publicHalf(s.inner.identity), dist, record);
      case ProcessSender(sender, dist, record) => InstallPins(s, sender, dist, record);
      case GroupEncrypt(dist, record) => InstallPins(s, w.p.publicHalf(s.inner.identity), dist, record);
      case GroupDecrypt(sender, dist, record) => InstallPins(s, sender, dist, record);
      case _ =>
    }
  }

  lemma InstallPins(s: Store, sender: Bytes, dist: Bytes, record: Bytes)
    ensures InstallSenderKey(s, sender, dist, record).inner.pinned == s.inner.pinned
    ensures OrElse(AdvanceSenderKey(s, sender, dist, record), s).inner.pinned == s.inner.pinned
  {
  }

  lemma ReopenedPins(p: Parsers, s: Store, orders: Orders)
    requires Serializable(p, s, orders) && PinsMatch(p, s)
    ensures PinsMatch(p, Reopened(p, s, orders))
  {
    if Load(p, Layout(p, s, orders)).Some? { LoadedPins(p, Layout(p, s, orders)); }
  }

  /** Whatever bytes load, the pins they load are right. */
  lemma LoadedPins(p: Parsers, bytes: Bytes)
    requires Load(p, bytes).Some?
    ensures PinsMatch(p, Load(p, bytes).value)
  {
    var s := Load(p, bytes).value;
    forall q | PinOf(s, q).Some? ensures PinOf(s, q) == p.identityKey(q) {
      LoadPinsMatch(p, ReadBody(p, ReadU8(bytes).rest).value.sessions, q);
    }
  }

  /** `states` is the trace of `ops`, every one of them legal when it is taken. */
  ghost predicate IsRun(w: World, states: seq<Store>, ops: seq<Op>) {
    && |states| == |ops| + 1
    && (forall i :: 0 <= i < |ops| ==>
          Inv(w.p, states[i]) ==> Legal(w.p, states[i], ops[i]) && states[i + 1] == Step(w, states[i], ops[i]))
  }

  lemma {:induction false} RunKeepsInv(w: World, states: seq<Store>, ops: seq<Op>, n: nat)
    requires IsRun(w, states, ops) && Sealed.Lawful(w.c, w.p) && Inv(w.p, states[0]) && n <= |ops|
    ensures Inv(w.p, states[n])
    ensures PinsMatch(w.p, states[0]) ==> PinsMatch(w.p, states[n])
    decreases n
  {
    if n > 0 {
      RunKeepsInv(w, states, ops, n - 1);
      StepInv(w, states[n - 1], ops[n - 1]);
      if PinsMatch(w.p, states[n - 1]) { StepPins(w, states[n - 1], ops[n - 1]); }
    }
  }

  ghost predicate Started(p: Parsers, s: Store, identity: Bytes, registrationId: nat) {
    && s == Fresh(identity, registrationId)
    && Canonical(p.identityPair, identity) && |p.publicHalf(identity)| <= U16_MAX && registrationId <= U32_MAX
  }

  /** In every state of every run from a fresh store, whatever envelopes arrive: each address with a
      non-empty session belongs to a listed peer, the sender-key index names exactly the stored sender
      keys, every indexed identity fits its prefix, every pinned identity is the one its address names,
      and the snapshot loads back to the same store. */
  lemma EveryRunIsSafe(w: World, states: seq<Store>, ops: seq<Op>, n: nat, identity: Bytes, registrationId: nat)
    requires IsRun(w, states, ops) && Sealed.Lawful(w.c, w.p) && n <= |ops|
    requires Started(w.p, states[0], identity, registrationId)
    ensures
      var s := states[n];
      && (forall a :: a in s.inner.sessions && s.inner.sessions[a] != [] ==>
            exists q :: q in s.peers && Address(q) == a)
      && (forall key :: key in s.inner.senderKeys <==> exists e :: e in s.senderKeyIndex && (Address(e.0), e.1) == key)
      && (forall q :: q in s.peers ==> |q| <= U16_MAX)
      && (forall e :: e in s.senderKeyIndex ==> |e.0| <= U16_MAX)
      && (forall q :: PinOf(s, q).Some? ==> PinOf(s, q) == w.p.identityKey(q))
    ensures forall o :: Serializable(w.p, states[n], o) ==> LoadsBack(w.p, states[n], o)
  {
    FreshInv(w.p, identity, registrationId);
    RunKeepsInv(w, states, ops, n);
    InvMeaning(w.p, states[n]);
    forall o | Serializable(w.p, states[n], o) ensures LoadsBack(w.p, states[n], o) {
      SnapshotRoundTrip(w.p, states[n], o);
    }
  }

  /** The snapshot loads, and as the same store. */
  ghost predicate LoadsBack(p: Parsers, s: Store, o: Orders)
    requires Serializable(p, s, o)
  {
    Load(p, Layout(p, s, o)).Some? && Reloaded(p, s, Load(p, Layout(p, s, o)).value)
  }

  lemma InvMeaning(p: Parsers, s: Store)
    requires Inv(p, s)
    ensures forall a :: a in s.inner.sessions && s.inner.sessions[a] != [] ==>
      exists q :: q in s.peers && Address(q) == a
    ensures forall key :: key in s.inner.senderKeys <==> exists e :: e in s.senderKeyIndex && (Address(e.0), e.1) == key
    ensures forall e :: e in s.senderKeyIndex ==> |e.0| <= U16_MAX
  {
    forall a | a in s.inner.sessions && s.inner.sessions[a] != [] ensures exists q :: q in s.peers && Address(q) == a {
      assert ListedAt(p, s.peers, a);
    }
    forall key ensures key in s.inner.senderKeys <==> exists e :: e in s.senderKeyIndex && (Address(e.0), e.1) == key {
      if key in s.inner.senderKeys { assert Indexed(s.senderKeyIndex, key); }
      if e :| e in s.senderKeyIndex && (Address(e.0), e.1) == key { assert EntryStored(p, s.inner.senderKeys, e); }
    }
    forall e | e in s.senderKeyIndex ensures |e.0| <= U16_MAX { assert EntryStored(p, s.inner.senderKeys, e); }
  }
}
