/** The sealed-sender pipeline: `seal_send`, `peek_sealed_lengths`, `seal_receive`, and the
    caller-buffer protocol of `pizzini_store_seal_receive` on top. */
module SealedSender {
  import opened Wire
  import opened DeviceStore
  import Hex
  import Padding

  const MESSAGE_ID_LEN := 16
  const MIN_SANE_EPOCH_MILLIS := 1_577_836_800_000
  const SENDER_CERT_TTL_MS := 30 * 24 * 60 * 60 * 1000
  const SENDER_CERT_REFRESH_MARGIN_MS := 7 * 24 * 60 * 60 * 1000

  /** The opened outer envelope: claimed sender, its certificate, message type and contents. */
  datatype Usmc = Usmc(sender: Bytes, certificate: Bytes, isPreKey: bool, contents: Bytes)

  datatype Decrypted =
    | Plain(padded: Bytes, record: Bytes, spent: Option<nat>)
    | Repeated
    | Undecryptable

  datatype Encrypted = Encrypted(isPreKey: bool, ratchet: Bytes, record: Bytes)

  /** libsignal's primitives. */
  datatype Crypto = Crypto(
    open: (Bytes, Bytes) -> Option<Usmc>,
    seal: (Bytes, Usmc) -> Option<Bytes>,
    mint: (Bytes, nat) -> Option<Bytes>,
    expires: Bytes -> nat,
    validates: (Bytes, Bytes, nat) -> bool,
    parses: (bool, Bytes) -> bool,
    encrypt: (Store, Bytes, Bytes) -> Option<Encrypted>,
    decrypt: (Store, Bytes, bool, Bytes) -> Decrypted)

  /** Decryption never yields more bytes than its input. */
  ghost predicate Shrinks(c: Crypto) {
    forall s, sender, isPreKey, ratchet :: c.decrypt(s, sender, isPreKey, ratchet).Plain? ==>
      |c.decrypt(s, sender, isPreKey, ratchet).padded| <= |ratchet|
  }

  /** The records libsignal hands back re-parse to themselves, a minted certificate is not empty, and an
      opened envelope names its sender by a key's own serialization. */
  ghost predicate Lawful(c: Crypto, p: Parsers) {
    && (forall id, sealed :: c.open(id, sealed).Some? ==> Canonical(p.identityKey, c.open(id, sealed).value.sender))
    && (forall id, at :: c.mint(id, at).Some? ==>
          c.mint(id, at).value != [] && Canonical(p.certificate, c.mint(id, at).value))
    && (forall s, peer, padded :: c.encrypt(s, peer, padded).Some? ==>
          Canonical(p.session, c.encrypt(s, peer, padded).value.record))
    && (forall s, sender, isPreKey, ratchet :: c.decrypt(s, sender, isPreKey, ratchet).Plain? ==>
          Canonical(p.session, c.decrypt(s, sender, isPreKey, ratchet).record))
  }

  // ----- send -----

  predicate NeedsMint(c: Crypto, s: Store, now: nat) {
    || s.certificate.None?
    || c.expires(s.certificate.value) <= now
    || c.expires(s.certificate.value) - now <= SENDER_CERT_REFRESH_MARGIN_MS
  }

  /** The certificate to send with, minted when there is none or it is about to lapse. */
  function EnsureCertificate(c: Crypto, s: Store, now: nat): Option<(Store, Bytes)> {
    if now < MIN_SANE_EPOCH_MILLIS then None
    else if NeedsMint(c, s, now) then
      match c.mint(s.inner.identity, now + SENDER_CERT_TTL_MS)
      case None => None
      case Some(certificate) => Some((MintCertificate(s, certificate), certificate))
    else Some((s, s.certificate.value))
  }

  /** A certificate in use always has more than the refresh margin left, and is the cached one. */
  lemma CertificateStaysFresh(c: Crypto, s: Store, now: nat)
    requires forall id, at :: c.mint(id, at).Some? ==> c.expires(c.mint(id, at).value) == at
    requires EnsureCertificate(c, s, now).Some?
    ensures c.expires(EnsureCertificate(c, s, now).value.1) > now + SENDER_CERT_REFRESH_MARGIN_MS
    ensures EnsureCertificate(c, s, now).value.0.certificate == Some(EnsureCertificate(c, s, now).value.1)
  {
  }

  function Contents(messageId: Bytes, isPreKey: bool, ratchet: Bytes): Bytes {
    messageId + [if isPreKey then 1 else 0] + ratchet
  }

  /** New store and sealed bytes; a failure keeps the store as far as the send had got. */
  function SealSend(c: Crypto, p: Parsers, s: Store, peer: Bytes, messageId: Bytes, plaintext: Bytes, now: nat)
    : (Store, Option<Bytes>)
  {
    match EnsureCertificate(c, s, now)
    case None => (s, None)
    case Some((s1, certificate)) =>
      match Padding.Pad(plaintext)
      case None => (s1, None)
      case Some(padded) =>
        match c.encrypt(s1, peer, padded)
        case None => (s1, None)
        case Some(e) =>
          match EncryptTo(s1, peer, e.record)
          case None => (s1, None)
          case Some(s2) =>
            (s2, c.seal(peer, Usmc(p.publicHalf(s.inner.identity), certificate, e.isPreKey,
                                   Contents(messageId, e.isPreKey, e.ratchet))))
  }

  predicate LiveSession(s: Store, peer: Bytes) {
    Address(peer) in s.inner.sessions && s.inner.sessions[Address(peer)] != []
  }

  /** Sealing succeeds exactly when the clock is sane, a certificate is at hand or can be minted, the
      plaintext is at most 262140 bytes, the session is live, and the two primitives succeed. */
  lemma SealSucceedsIff(c: Crypto, p: Parsers, s: Store, peer: Bytes, messageId: Bytes, plaintext: Bytes, now: nat)
    ensures SealSend(c, p, s, peer, messageId, plaintext, now).1.Some? <==>
      && now >= MIN_SANE_EPOCH_MILLIS
      && (NeedsMint(c, s, now) ==> c.mint(s.inner.identity, now + SENDER_CERT_TTL_MS).Some?)
      && |plaintext| <= Padding.MAX_PLAINTEXT
      && LiveSession(s, peer)
      && PrimitivesSucceed(c, p, s, peer, messageId, plaintext, now)
  {
  }

  predicate PrimitivesSucceed(
      c: Crypto, p: Parsers, s: Store, peer: Bytes, messageId: Bytes, plaintext: Bytes, now: nat)
  {
    var ready, padded := EnsureCertificate(c, s, now), Padding.Pad(plaintext);
    && ready.Some? && padded.Some?
    && var e := c.encrypt(ready.value.0, peer, padded.value);
    && e.Some?
    && c.seal(peer, Usmc(p.publicHalf(s.inner.identity), ready.value.1, e.value.isPreKey,
                         Contents(messageId, e.value.isPreKey, e.value.ratchet))).Some?
  }

  lemma CertificateKeepsInv(c: Crypto, p: Parsers, s: Store, now: nat)
    requires Inv(p, s) && Lawful(c, p) && EnsureCertificate(c, s, now).Some?
    ensures Inv(p, EnsureCertificate(c, s, now).value.0)
  {
    if NeedsMint(c, s, now) { CertificateInv(p, s, EnsureCertificate(c, s, now).value.1); }
  }

  /** Sending keeps the store's invariant and its peers, however far it gets. */
  lemma SendInv(c: Crypto, p: Parsers, s: Store, peer: Bytes, messageId: Bytes, plaintext: Bytes, now: nat)
    requires Inv(p, s) && Lawful(c, p)
    ensures Inv(p, SealSend(c, p, s, peer, messageId, plaintext, now).0)
    ensures SealSend(c, p, s, peer, messageId, plaintext, now).0.peers == s.peers
  {
    var ready, padded := EnsureCertificate(c, s, now), Padding.Pad(plaintext);
    if ready.Some? {
      CertificateKeepsInv(c, p, s, now);
      var s1 := ready.value.0;
      if padded.Some? && c.encrypt(s1, peer, padded.value).Some? {
        var e := c.encrypt(s1, peer, padded.value).value;
        if EncryptTo(s1, peer, e.record).Some? { EncryptInv(p, s1, peer, e.record); }
      }
    }
  }

  /** The object's `ensure_sender_certificate_inner`: mint unless the cached one has margin left. */
  method ReadyCertificate(c: Crypto, d: Device, now: nat) returns (r: Option<Bytes>)
    modifies d
    ensures match EnsureCertificate(c, old(d.Image()), now)
      case None => r.None? && d.Image() == old(d.Image())
      case Some((s, certificate)) => r == Some(certificate) && d.Image() == s
  {
    if now < MIN_SANE_EPOCH_MILLIS { return None; }
    r := d.certificate;
    if r.None? || c.expires(r.value) <= now || c.expires(r.value) - now <= SENDER_CERT_REFRESH_MARGIN_MS {
      r := c.mint(d.inner.identity, now + SENDER_CERT_TTL_MS);
      if r.Some? { d.certificate := r; }
    }
  }

  /** The object's `seal_send`: certificate, padding, ratchet step, sealing, in that order. */
  method Send(c: Crypto, p: Parsers, d: Device, peer: Bytes, messageId: Bytes, plaintext: Bytes, now: nat)
    returns (r: Option<Bytes>)
    modifies d
    ensures (d.Image(), r) == SealSend(c, p, old(d.Image()), peer, messageId, plaintext, now)
  {
    var certificate := ReadyCertificate(c, d, now);
    if certificate.None? { return None; }
    var padded := Padding.PadPlaintext(plaintext);
    if padded.None? { return None; }
    var image := Store(d.inner, d.nextPreKeyId, d.nextSignedPreKeyId, d.nextKyberPreKeyId,
                       d.peers, d.certificate, d.senderKeyIndex);
    var e := c.encrypt(image, peer, padded.value);
    if e.None? { return None; }
    var a := Address(peer);
    if a !in d.inner.sessions || d.inner.sessions[a] == [] { return None; }
    d.inner := d.inner.(sessions := d.inner.sessions[a := e.value.record]);
    var contents := messageId;
    contents := contents + [if e.value.isPreKey then 1 else 0];
    contents := contents + e.value.ratchet;
    r := c.seal(peer, Usmc(p.publicHalf(d.inner.identity), certificate.value, e.value.isPreKey, contents));
  }

  // ----- receive -----

  datatype Received = Received(sender: Bytes, messageId: Bytes, plaintext: Bytes, duplicate: bool)
  datatype Outcome = Accepted(received: Received) | BadSignature | Internal

  /** `peek_sealed_lengths`: bounds for the sender and plaintext buffers, without decrypting. */
  function Peek(c: Crypto, s: Store, sealed: Bytes): Option<(nat, nat)> {
    match c.open(s.inner.identity, sealed)
    case None => None
    case Some(u) => if |u.contents| < 18 then None else Some((|u.sender|, |u.contents| - 18))
  }

  function Commit(s: Store, u: Usmc, d: Decrypted): (Store, Outcome)
    requires |u.contents| >= 18
  {
    var messageId := u.contents[..16];
    match d
    case Undecryptable => (s, Internal)
    case Repeated => (s, Accepted(Received(u.sender, messageId, [], true)))
    case Plain(padded, record, spent) =>
      var s' := DecryptFrom(s, u.sender, record, spent);
      match Padding.Unpad(padded)
      case None => (s', Internal)
      case Some(plaintext) => (s', Accepted(Received(u.sender, messageId, plaintext, false)))
  }

  function ReceiveOpened(c: Crypto, p: Parsers, s: Store, u: Usmc, now: nat): (Store, Outcome) {
    if u.sender !in s.peers then (s, BadSignature)
    else if p.identityKey(u.sender).None? then (s, Internal)
    else if !c.validates(u.certificate, u.sender, now) then (s, BadSignature)
    else if |u.contents| < 18 then (s, Internal)
    else
      var isPreKey := u.contents[16] != 0;
      if u.isPreKey != isPreKey then (s, Internal)
      else if !c.parses(isPreKey, u.contents[17..]) then (s, Internal)
      else Commit(s, u, c.decrypt(s, u.sender, isPreKey, u.contents[17..]))
  }

  function SealReceive(c: Crypto, p: Parsers, s: Store, sealed: Bytes, now: nat): (Store, Outcome) {
    match c.open(s.inner.identity, sealed)
    case None => (s, Internal)
    case Some(u) => ReceiveOpened(c, p, s, u, now)
  }

  /** The object's `seal_receive`, with its constant-time contact gate. */
  method Receive(c: Crypto, p: Parsers, d: Device, sealed: Bytes, now: nat) returns (r: Outcome)
    modifies d
    ensures (d.Image(), r) == SealReceive(c, p, old(d.Image()), sealed, now)
  {
    var envelope := c.open(d.inner.identity, sealed);
    if envelope.None? { return Internal; }
    var u := envelope.value;
    var trusted := Padding.CtPeerContains(d.peers, u.sender);
    if !trusted { return BadSignature; }
    if p.identityKey(u.sender).None? { return Internal; }
    if !c.validates(u.certificate, u.sender, now) { return BadSignature; }
    if |u.contents| < 18 { return Internal; }
    var isPreKey := u.contents[16] != 0;
    if u.isPreKey != isPreKey { return Internal; }
    if !c.parses(isPreKey, u.contents[17..]) { return Internal; }
    var image := Store(d.inner, d.nextPreKeyId, d.nextSignedPreKeyId, d.nextKyberPreKeyId,
                       d.peers, d.certificate, d.senderKeyIndex);
    match c.decrypt(image, u.sender, isPreKey, u.contents[17..]) {
      case Undecryptable => r := Internal;
      case Repeated => r := Accepted(Received(u.sender, u.contents[..16], [], true));
      case Plain(padded, record, spent) =>
        d.inner := d.inner.(sessions := d.inner.sessions[Address(u.sender) := record],
                            pinned := d.inner.pinned[Address(u.sender) := u.sender]);
        if spent.Some? {
          d.inner := d.inner.(preKeys := d.inner.preKeys - {spent.value});
        }
        var plaintext := Padding.Unpad(padded);
        r := if plaintext.None? then Internal
             else Accepted(Received(u.sender, u.contents[..16], plaintext.value, false));
    }
  }

  /** An envelope from a non-peer or with a failing certificate is refused as a bad signature and
      changes nothing; whatever does change the store went through a listed peer's valid one. */
  lemma OnlyTrustedEnvelopesAct(c: Crypto, p: Parsers, s: Store, sealed: Bytes, now: nat)
    ensures
      var (s', r) := SealReceive(c, p, s, sealed, now);
      var u := c.open(s.inner.identity, sealed);
      && (r == BadSignature <==>
            && u.Some?
            && (|| u.value.sender !in s.peers
                || (&& p.identityKey(u.value.sender).Some?
                    && !c.validates(u.value.certificate, u.value.sender, now))))
      && (r == BadSignature ==> s' == s)
      && (s' != s ==> u.Some? && u.value.sender in s.peers && c.validates(u.value.certificate, u.value.sender, now))
      && (r.Accepted? && r.received.duplicate ==> s' == s && r.received.plaintext == [])
  {
  }

  /** Receiving keeps the store's invariant and its peers. */
  lemma ReceiveInv(c: Crypto, p: Parsers, s: Store, sealed: Bytes, now: nat)
    requires Inv(p, s) && Lawful(c, p)
    ensures Inv(p, SealReceive(c, p, s, sealed, now).0)
    ensures SealReceive(c, p, s, sealed, now).0.peers == s.peers
  {
    var envelope := c.open(s.inner.identity, sealed);
    if envelope.Some? && SealReceive(c, p, s, sealed, now).0 != s {
      var u := envelope.value;
      var d := c.decrypt(s, u.sender, u.contents[16] != 0, u.contents[17..]);
      DecryptInv(p, s, u.sender, d.record, d.spent);
    }
  }

  lemma CommitSessions(s: Store, u: Usmc, d: Decrypted)
    requires |u.contents| >= 18
    ensures Commit(s, u, d).0.inner.sessions - {Address(u.sender)} == s.inner.sessions - {Address(u.sender)}
  {
    if d.Plain? {
      assert Commit(s, u, d).0.inner.sessions == s.inner.sessions[Address(u.sender) := d.record];
    }
  }

  lemma SessionsAfter(c: Crypto, p: Parsers, s: Store, u: Usmc, now: nat)
    ensures
      ReceiveOpened(c, p, s, u, now).0.inner.sessions - {Address(u.sender)} == s.inner.sessions - {Address(u.sender)}
  {
    if |u.contents| >= 18 {
      CommitSessions(s, u, c.decrypt(s, u.sender, u.contents[16] != 0, u.contents[17..]));
    }
  }

  /** No session but the claimed sender's is touched. */
  lemma OtherSessionsUntouched(c: Crypto, p: Parsers, s: Store, u: Usmc, now: nat, other: Bytes)
    requires other != u.sender
    ensures
      var s' := ReceiveOpened(c, p, s, u, now).0;
      && (Address(other) in s'.inner.sessions <==> Address(other) in s.inner.sessions)
      && (Address(other) in s.inner.sessions ==> s'.inner.sessions[Address(other)] == s.inner.sessions[Address(other)])
  {
    SessionsAfter(c, p, s, u, now);
    if Address(other) == Address(u.sender) { Hex.LowerInjective(other, u.sender); }
    var sessions := ReceiveOpened(c, p, s, u, now).0.inner.sessions;
    assert Address(other) in sessions <==> Address(other) in sessions - {Address(u.sender)};
    assert Address(other) in s.inner.sessions <==> Address(other) in s.inner.sessions - {Address(u.sender)};
  }

  // ----- end to end -----

  /** The two ends' primitives agree on this envelope: it opens to what was sealed, its ratchet
      ciphertext decrypts to what was encrypted, and the certificate still validates. */
  ghost predicate ChannelWorks(
      c: Crypto, a: Store, b: Store, peer: Bytes, sealed: Bytes, u: Usmc, padded: Bytes, e: Encrypted, now: nat)
  {
    && c.seal(peer, u) == Some(sealed) && c.open(b.inner.identity, sealed) == Some(u)
    && c.encrypt(a, peer, padded) == Some(e) && |e.ratchet| > 0
    && c.parses(e.isPreKey, e.ratchet)
    && c.decrypt(b, u.sender, e.isPreKey, e.ratchet).Plain?
    && c.decrypt(b, u.sender, e.isPreKey, e.ratchet).padded == padded
    && c.validates(u.certificate, u.sender, now)
  }

  lemma ContentsFields(messageId: Bytes, isPreKey: bool, ratchet: Bytes)
    requires |messageId| == MESSAGE_ID_LEN
    ensures
      var contents := Contents(messageId, isPreKey, ratchet);
      && |contents| == 17 + |ratchet| && contents[..16] == messageId && (contents[16] != 0 <==> isPreKey)
      && contents[17..] == ratchet
  {
  }

  /** Any plaintext up to 262140 bytes, sealed under a sane clock with a certificate and a live session
      over a working channel, is sealed and then received with the same sender, message id and bytes by
      a store that lists the sender. */
  lemma SealedMessageArrives(
      c: Crypto, p: Parsers, a: Store, b: Store, peer: Bytes, messageId: Bytes, plaintext: Bytes,
      sent: nat, received: nat, e: Encrypted, sealed: Bytes)
    requires |messageId| == MESSAGE_ID_LEN && |plaintext| <= Padding.MAX_PLAINTEXT && LiveSession(a, peer)
    requires p.publicHalf(a.inner.identity) in b.peers && p.identityKey(p.publicHalf(a.inner.identity)).Some?
    requires EnsureCertificate(c, a, sent).Some?
    requires
      var (a1, certificate) := EnsureCertificate(c, a, sent).value;
      ChannelWorks(c, a1, b, peer, sealed,
                   Usmc(p.publicHalf(a.inner.identity), certificate, e.isPreKey,
                        Contents(messageId, e.isPreKey, e.ratchet)),
                   Padding.Pad(plaintext).value, e, received)
    ensures SealSend(c, p, a, peer, messageId, plaintext, sent).1 == Some(sealed)
    ensures SealReceive(c, p, b, sealed, received).1
         == Accepted(Received(p.publicHalf(a.inner.identity), messageId, plaintext, false))
  {
    ContentsFields(messageId, e.isPreKey, e.ratchet);
    Padding.PaddingRoundTrip(plaintext);
  }

  // ----- caller buffers -----

  const OK := 0
  const BUFFER_TOO_SMALL := -2
  const INTERNAL := -3
  const BAD_SIGNATURE := -4

  predicate TooSmall(c: Crypto, s: Store, sealed: Bytes, senderCap: nat, plaintextCap: nat) {
    var peeked := Peek(c, s, sealed);
    peeked.Some? && (peeked.value.0 > senderCap || peeked.value.1 > plaintextCap)
  }

  method CopyInto(src: Bytes, dst: array<byte>)
    requires |src| <= dst.Length
    modifies dst
    ensures dst[..|src|] == src && dst[|src|..] == old(dst[|src|..])
  {
    for i := 0 to |src|
      invariant dst[..i] == src[..i] && dst[|src|..] == old(dst[|src|..])
    {
      dst[i] := src[i];
      assert dst[..i + 1] == dst[..i] + [src[i]] == src[..i + 1];
    }
  }

  /** `copy_or_size_out`: the bytes if they fit, else only the size to ask for. */
  method CopyOrSizeOut(bytes: Bytes, out: array<byte>) returns (code: int, len: nat)
    modifies out
    ensures len == |bytes|
    ensures code == (if |bytes| > out.Length then BUFFER_TOO_SMALL else OK)
    ensures code == OK ==> out[..len] == bytes
    ensures code != OK ==> out[..] == old(out[..])
  {
    if |bytes| > out.Length { return BUFFER_TOO_SMALL, |bytes|; }
    CopyInto(bytes, out);
    return OK, |bytes|;
  }

  /** What an accepted envelope leaves behind fits what was peeked, so the guard after the
      decryption can never fire. */
  lemma PeekBoundsReceive(c: Crypto, p: Parsers, s: Store, sealed: Bytes, now: nat)
    requires Shrinks(c) && SealReceive(c, p, s, sealed, now).1.Accepted?
    ensures Peek(c, s, sealed).Some?
    ensures |SealReceive(c, p, s, sealed, now).1.received.sender| <= Peek(c, s, sealed).value.0
    ensures |SealReceive(c, p, s, sealed, now).1.received.plaintext| <= Peek(c, s, sealed).value.1
    ensures |SealReceive(c, p, s, sealed, now).1.received.messageId| == MESSAGE_ID_LEN
  {
    var u := c.open(s.inner.identity, sealed).value;
    var d := c.decrypt(s, u.sender, u.contents[16] != 0, u.contents[17..]);
    if d.Plain? { assert |d.padded| <= |u.contents[17..]|; }
  }

  /** `pizzini_store_seal_receive`: peek, size check, then the destructive step.  `senderLen` and
      `plaintextLen` are none where the C function leaves the length unwritten. */
  method SealReceiveInto(c: Crypto, p: Parsers, d: Device, sealed: Bytes, now: nat,
                         outSender: array<byte>, outMessageId: array<byte>, outPlaintext: array<byte>)
    returns (code: int, senderLen: Option<nat>, plaintextLen: Option<nat>, duplicate: bool)
    requires Shrinks(c) && outMessageId.Length == MESSAGE_ID_LEN
    requires outSender != outMessageId && outSender != outPlaintext && outMessageId != outPlaintext
    modifies d, outSender, outMessageId, outPlaintext
    ensures code == BUFFER_TOO_SMALL <==> TooSmall(c, old(d.Image()), sealed, outSender.Length, outPlaintext.Length)
    ensures code == BUFFER_TOO_SMALL ==>
      && d.Image() == old(d.Image())
      && senderLen == Some(Peek(c, old(d.Image()), sealed).value.0)
      && plaintextLen == Some(Peek(c, old(d.Image()), sealed).value.1)
    ensures code != BUFFER_TOO_SMALL && Peek(c, old(d.Image()), sealed).Some? ==>
      d.Image() == SealReceive(c, p, old(d.Image()), sealed, now).0
    ensures Peek(c, old(d.Image()), sealed).None? ==> code == INTERNAL && d.Image() == old(d.Image())
    ensures code == OK ==>
      var r := SealReceive(c, p, old(d.Image()), sealed, now).1;
      && r.Accepted? && senderLen == Some(|r.received.sender|) && plaintextLen == Some(|r.received.plaintext|)
      && senderLen.value <= outSender.Length && outSender[..senderLen.value] == r.received.sender
      && plaintextLen.value <= outPlaintext.Length && outPlaintext[..plaintextLen.value] == r.received.plaintext
      && outMessageId[..] == r.received.messageId && duplicate == r.received.duplicate
    ensures code in {OK, BUFFER_TOO_SMALL, INTERNAL, BAD_SIGNATURE}
  {
    senderLen, plaintextLen, duplicate := None, None, false;
    var envelope := c.open(d.inner.identity, sealed);
    if envelope.None? || |envelope.value.contents| < 18 { return INTERNAL, None, None, false; }
    var senderUpper, plaintextUpper := |envelope.value.sender|, |envelope.value.contents| - 18;
    if senderUpper > outSender.Length || plaintextUpper > outPlaintext.Length {
      return BUFFER_TOO_SMALL, Some(senderUpper), Some(plaintextUpper), false;
    }
    var r := Receive(c, p, d, sealed, now);
    if r.BadSignature? { return BAD_SIGNATURE, None, None, false; }
    if r.Internal? { return INTERNAL, None, None, false; }
    PeekBoundsReceive(c, p, old(d.Image()), sealed, now);
    var got := r.received;
    if |got.sender| > outSender.Length || |got.plaintext| > outPlaintext.Length {
      assert false;
    }
    CopyInto(got.sender, outSender);
    CopyInto(got.messageId, outMessageId);
    CopyInto(got.plaintext, outPlaintext);
    assert outMessageId[..] == outMessageId[..16];
    return OK, Some(|got.sender|), Some(|got.plaintext|), got.duplicate;
  }

  /** The documented calling pattern: on a too-small return, allocate what was advertised and call
      again.  The second call always fits, and the ratchet steps at most once, at the second call. */
  method ReceiveWithRetry(c: Crypto, p: Parsers, d: Device, sealed: Bytes, now: nat, senderCap: nat, plaintextCap: nat)
    returns (code: int, sender: Bytes, plaintext: Bytes)
    requires Shrinks(c)
    modifies d
    ensures code != BUFFER_TOO_SMALL
    ensures Peek(c, old(d.Image()), sealed).Some? ==> d.Image() == SealReceive(c, p, old(d.Image()), sealed, now).0
    ensures code == OK ==>
      var r := SealReceive(c, p, old(d.Image()), sealed, now).1;
      r.Accepted? && sender == r.received.sender && plaintext == r.received.plaintext
  {
    sender, plaintext := [], [];
    var outSender, outMessageId, outPlaintext := new byte[senderCap], new byte[16], new byte[plaintextCap];
    var senderLen, plaintextLen, duplicate;
    code, senderLen, plaintextLen, duplicate :=
      SealReceiveInto(c, p, d, sealed, now, outSender, outMessageId, outPlaintext);
    if code == BUFFER_TOO_SMALL {
      outSender, outPlaintext := new byte[senderLen.value], new byte[plaintextLen.value];
      code, senderLen, plaintextLen, duplicate :=
        SealReceiveInto(c, p, d, sealed, now, outSender, outMessageId, outPlaintext);
    }
    if code == OK {
      sender, plaintext := outSender[..senderLen.value], outPlaintext[..plaintextLen.value];
    }
  }
}
