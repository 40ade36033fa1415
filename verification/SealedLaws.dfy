/** What sealing and opening an envelope mean at the two ends. */
module SealedLaws {
  import opened Wire
  import opened DeviceStore
  import opened DeviceLaws
  import opened SealedSender
  import Padding

  // ----- the certificate -----

  /** No certificate under a clock before 2020.  Otherwise the cached one, untouched, exactly while it
      has more than seven days left; else one that is minted for our identity to last thirty days, and
      cached, if minting works. */
  lemma CertificateMeaning(c: Crypto, s: Store, now: nat)
    ensures
      var r := EnsureCertificate(c, s, now);
      var lasting := s.certificate.Some? && c.expires(s.certificate.value) > now + 7 * 24 * 60 * 60 * 1000;
      var minted := c.mint(s.inner.identity, now + 30 * 24 * 60 * 60 * 1000);
      && (r.Some? <==> now >= 1_577_836_800_000 && (lasting || minted.Some?))
      && (r.Some? && lasting ==> r.value == (s, s.certificate.value))
      && (r.Some? && !lasting ==> r.value == (s.(certificate := minted), minted.value))
  {
  }

  // ----- sending -----

  /** A sealed message stepped exactly the recipient's session, to the record libsignal gave. */
  lemma SendStepsOneSession(
      c: Crypto, p: Parsers, s: Store, peer: Bytes, messageId: Bytes, plaintext: Bytes, now: nat)
    requires SealSend(c, p, s, peer, messageId, plaintext, now).1.Some?
    ensures
      var s' := SealSend(c, p, s, peer, messageId, plaintext, now).0;
      var (s1, certificate) := EnsureCertificate(c, s, now).value;
      var e := c.encrypt(s1, peer, Padding.Pad(plaintext).value).value;
      && SessionOf(s', peer) == Some(e.record) && s'.certificate == Some(certificate)
      && OthersUntouched(s, s', peer) && PinOf(s', peer) == PinOf(s, peer) && s'.peers == s.peers
      && SamePreKeys(s, s') && SameIdentity(s, s') && SameSenderKeys(s, s')
  {
    var (s1, certificate) := EnsureCertificate(c, s, now).value;
    EncryptMeaning(s1, peer, c.encrypt(s1, peer, Padding.Pad(plaintext).value).value.record);
    forall q ensures SessionOf(s1, q) == SessionOf(s, q) && PinOf(s1, q) == PinOf(s, q) {}
  }

  /** Before the ratchet steps nothing but the certificate cache can have moved. */
  lemma FailedPadMovesNothing(
      c: Crypto, p: Parsers, s: Store, peer: Bytes, messageId: Bytes, plaintext: Bytes, now: nat)
    requires |plaintext| > Padding.MAX_PLAINTEXT || !Live(s, peer)
    ensures
      var s' := SealSend(c, p, s, peer, messageId, plaintext, now).0;
      s' == s.(certificate := s'.certificate)
  {
  }

  // ----- receiving -----

  /** The gates before the ratchet, in order: a listed peer, a decodable key, a valid certificate, a
      header and at least a byte, the two type tags in agreement, a ciphertext that parses. */
  ghost predicate Admissible(c: Crypto, p: Parsers, s: Store, u: Usmc, now: nat) {
    && u.sender in s.peers && p.identityKey(u.sender).Some? && c.validates(u.certificate, u.sender, now)
    && |u.contents| >= 18 && u.isPreKey == (u.contents[16] != 0) && c.parses(u.isPreKey, u.contents[17..])
  }

  ghost function Decryption(c: Crypto, s: Store, u: Usmc): Decrypted
    requires |u.contents| >= 18
  {
    c.decrypt(s, u.sender, u.isPreKey, u.contents[17..])
  }

  /** A message is accepted exactly when it passes every gate and decrypts to well-padded bytes, or is a
      repetition; then it names the sender of the envelope. */
  lemma ReceiveAcceptsIff(c: Crypto, p: Parsers, s: Store, sealed: Bytes, now: nat)
    ensures
      var r := SealReceive(c, p, s, sealed, now).1;
      var u := c.open(s.inner.identity, sealed);
      && (r.Accepted? <==>
            && u.Some? && Admissible(c, p, s, u.value, now)
            && var d := Decryption(c, s, u.value);
            d.Repeated? || (d.Plain? && Padding.Unpad(d.padded).Some?))
      && (r.Accepted? ==>
            && r.received.sender == u.value.sender
            && r.received.duplicate == Decryption(c, s, u.value).Repeated?
            && (!r.received.duplicate ==>
                  Padding.Unpad(Decryption(c, s, u.value).padded) == Some(r.received.plaintext)))
  {
  }

  /** The ratchet steps exactly when every gate is passed and the ciphertext is a new one. */
  lemma ReceiveStepsIff(c: Crypto, p: Parsers, s: Store, sealed: Bytes, now: nat)
    ensures
      var s' := SealReceive(c, p, s, sealed, now).0;
      var u := c.open(s.inner.identity, sealed);
      if u.Some? && Admissible(c, p, s, u.value, now) && Decryption(c, s, u.value).Plain?
      then s' == DecryptFrom(s, u.value.sender, Decryption(c, s, u.value).record, Decryption(c, s, u.value).spent)
      else s' == s
  {
  }

  /** Every accepted message, repeated or not, carries the id that the sending end put in. */
  lemma AcceptedIdIsTheSenders(
      c: Crypto, p: Parsers, s: Store, sealed: Bytes, now: nat, messageId: Bytes, isPreKey: bool, ratchet: Bytes)
    requires SealReceive(c, p, s, sealed, now).1.Accepted? && |messageId| == MESSAGE_ID_LEN
    requires c.open(s.inner.identity, sealed).value.contents == Contents(messageId, isPreKey, ratchet)
    ensures SealReceive(c, p, s, sealed, now).1.received.messageId == messageId
  {
    ContentsFields(messageId, isPreKey, ratchet);
  }

  /** An envelope delivered again is reported as the same message, so that it can be acknowledged again;
      nothing is shown twice and nothing moves. */
  lemma RedeliveredMessageIsNamed(
      c: Crypto, p: Parsers, b: Store, sealed: Bytes, now: nat, u: Usmc, messageId: Bytes, ratchet: Bytes)
    requires |messageId| == MESSAGE_ID_LEN && |ratchet| > 0
    requires c.open(b.inner.identity, sealed) == Some(u) && u.contents == Contents(messageId, u.isPreKey, ratchet)
    requires u.sender in b.peers && p.identityKey(u.sender).Some? && c.validates(u.certificate, u.sender, now)
    requires c.parses(u.isPreKey, ratchet) && c.decrypt(b, u.sender, u.isPreKey, ratchet).Repeated?
    ensures SealReceive(c, p, b, sealed, now) == (b, Accepted(Received(u.sender, messageId, [], true)))
  {
    ContentsFields(messageId, u.isPreKey, ratchet);
  }

  /** What a caller is told to allocate for an envelope, before anything is decrypted. */
  lemma PeekOfEnvelope(c: Crypto, s: Store, sealed: Bytes, u: Usmc, messageId: Bytes, isPreKey: bool, ratchet: Bytes)
    requires c.open(s.inner.identity, sealed) == Some(u) && |messageId| == MESSAGE_ID_LEN
    requires u.contents == Contents(messageId, isPreKey, ratchet)
    ensures Peek(c, s, sealed) == if |ratchet| == 0 then None else Some((|u.sender|, |ratchet| - 1))
  {
    ContentsFields(messageId, isPreKey, ratchet);
  }

  /** Receiving pins nobody but the sender, under its own identity. */
  lemma ReceivePins(c: Crypto, p: Parsers, s: Store, sealed: Bytes, now: nat)
    requires PinsMatch(p, s) && Lawful(c, p)
    ensures PinsMatch(p, SealReceive(c, p, s, sealed, now).0)
  {
    ReceiveStepsIff(c, p, s, sealed, now);
    var u := c.open(s.inner.identity, sealed);
    if u.Some? && Admissible(c, p, s, u.value, now) && Decryption(c, s, u.value).Plain? {
      var d := Decryption(c, s, u.value);
      DecryptPins(p, s, u.value.sender, d.record, d.spent);
    }
  }

  lemma SendPins(c: Crypto, p: Parsers, s: Store, peer: Bytes, messageId: Bytes, plaintext: Bytes, now: nat)
    requires PinsMatch(p, s)
    ensures PinsMatch(p, SealSend(c, p, s, peer, messageId, plaintext, now).0)
  {
    SamePinsKeep(p, s, SealSend(c, p, s, peer, messageId, plaintext, now).0);
  }
}
