/** What each outbound operation does to the ciphertexts that are, or may yet come, on the wire. */
module RatchetEffects {
  import opened Wire
  import opened Outbound

  // ----- what is live -----

  /** A row that a retry may still put on the wire. */
  ghost predicate Waiting(s: State, c: Cipher) {
    exists id :: id in s.outbox && s.outbox[id].Pending() && s.outbox[id].cipher == c
  }

  /** A leg that has yet to make its attempt. */
  ghost predicate Queued(s: State, c: Cipher) {
    exists i :: 0 <= i < |s.sends| && i in s.queued && s.sends[i].cipher == c
  }

  /** What a restart does not take away. */
  ghost predicate Durable(s: State, c: Cipher) { OnWire(s, c) || Waiting(s, c) }

  ghost predicate Live(s: State, c: Cipher) { Durable(s, c) || Queued(s, c) }

  // ----- the two kinds of effect -----

  ghost predicate RatchetGrows(s: State, s': State) { forall p :: At(s.ratchet, p) <= At(s'.ratchet, p) }

  /** The disk is as it was or has the new ratchet. */
  ghost predicate DiskFollows(s: State, s': State) { s'.disk == s.disk || s'.disk == s'.ratchet }

  ghost predicate OnlyNewLive(s: State, s': State, c: Cipher) { forall d :: Live(s', d) ==> Live(s, d) || d == c }

  /** Nothing becomes live. */
  ghost predicate Calm(s: State, s': State) {
    RatchetGrows(s, s') && DiskFollows(s, s') && forall c :: Live(s', c) ==> Live(s, c)
  }

  /** At most one ciphertext becomes live, made at the current step, which is then passed. */
  ghost predicate Seals(s: State, s': State, c: Cipher) {
    && RatchetGrows(s, s') && DiskFollows(s, s') && OnlyNewLive(s, s', c)
    && c.step == At(s.ratchet, c.peer) < At(s'.ratchet, c.peer)
  }

  /** And its step is on disk. */
  ghost predicate Saves(s: State, s': State, c: Cipher) { Seals(s, s', c) && s'.disk == s'.ratchet }

  /** Where every frame, every queued leg and every pending row comes from. */
  lemma LiveFrom(s: State, s': State, c: Cipher)
    requires forall i :: 0 <= i < |s'.sends| && (s'.sends[i].onWire || i in s'.queued) ==>
      Live(s, s'.sends[i].cipher) || s'.sends[i].cipher == c
    requires forall id :: id in s'.outbox && s'.outbox[id].Pending() ==>
      Live(s, s'.outbox[id].cipher) || s'.outbox[id].cipher == c
    ensures OnlyNewLive(s, s', c)
  {
  }

  // ----- sends that make a ciphertext -----

  /** A sealed send with a row: saved if the session write works, else nothing new is live. */
  lemma ShipEffect(s: State, peer: Bytes, id: Bytes, body: Bytes, now: int, ttl: int, token: Token, env: Env)
    ensures
      var s' := SealAndShip(s, peer, id, body, now, ttl, token, env);
      if env.persists then Saves(s, s', Sealed(s, peer, body)) else Calm(s, s')
  {
    var s' := SealAndShip(s, peer, id, body, now, ttl, token, env);
    LiveFrom(s, s', Sealed(s, peer, body));
  }

  /** Seal, persist, and only then emit: the order every frame without a row follows. */
  lemma FrameEffect(s: State, peer: Bytes, body: Bytes, token: Option<Token>, relays: nat)
    ensures Saves(s, Emit(Persist(Encrypt(s, peer)), Sealed(s, peer, body), token, relays), Sealed(s, peer, body))
  {
    LiveFrom(s, Emit(Persist(Encrypt(s, peer)), Sealed(s, peer, body), token, relays), Sealed(s, peer, body));
  }

  /** A group control frame is not saved. */
  lemma ControlEffect(s: State, peer: Bytes, body: Bytes, token: Option<Token>, relays: nat)
    ensures Seals(s, Emit(Encrypt(s, peer), Sealed(s, peer, body), token, relays), Sealed(s, peer, body))
  {
    LiveFrom(s, Emit(Encrypt(s, peer), Sealed(s, peer, body), token, relays), Sealed(s, peer, body));
  }

  /** Nor is a group leg; its row waits and the leg is queued. */
  lemma LegEffect(s: State, s': State, peer: Bytes, id: Bytes, body: Bytes, now: int, ttl: int, token: Option<Token>)
    requires
      var c := Sealed(s, peer, body);
      s' == PutRow(Encrypt(s, peer), id, NewRow(c, now, ttl)).(
        sends := s.sends + [Send(c, token, false, Some(id))], queued := s.queued + {|s.sends|})
    ensures Seals(s, s', Sealed(s, peer, body))
  {
    LiveFrom(s, s', Sealed(s, peer, body));
  }

  // ----- everything else -----

  /** Minting and rolling back touch no ratchet, row or frame. */
  ghost predicate SameSteps(s: State, s': State) {
    && s'.ratchet == s.ratchet && s'.disk == s.disk && s'.outbox == s.outbox
    && s'.sends == s.sends && s'.queued == s.queued
  }

  lemma SameStepsCalm(s: State, s': State)
    requires SameSteps(s, s')
    ensures Calm(s, s')
  {
    forall c | Live(s', c) ensures Live(s, c) {}
  }

  lemma EncryptCalm(s: State, peer: Bytes)
    ensures Calm(s, Encrypt(s, peer))
  {
  }

  lemma SaveCalm(s: State, persists: bool)
    ensures Calm(s, Save(s, persists))
  {
  }

  /** A resend puts a waiting ciphertext on the wire. */
  lemma ResendCalm(s: State, s': State, id: Bytes)
    requires id in s.outbox && s.outbox[id].Pending()
    requires s'.ratchet == s.ratchet && s'.disk == s.disk && s'.queued == s.queued
    requires s'.sends == s.sends || (exists x: Send :: x.cipher == s.outbox[id].cipher && s'.sends == s.sends + [x])
    requires
      || s'.outbox == s.outbox
      || exists e: Entry :: e.cipher == s.outbox[id].cipher && s'.outbox == s.outbox[id := e]
    ensures Calm(s, s')
  {
    assert Waiting(s, s.outbox[id].cipher);
    LiveFrom(s, s', s.outbox[id].cipher);
  }

  /** Failing, settling or dropping rows only shrinks what is live. */
  lemma FewerRowsCalm(s: State, s': State)
    requires s'.ratchet == s.ratchet && s'.disk == s.disk && s'.sends == s.sends && s'.queued <= s.queued
    requires forall id :: id in s'.outbox && s'.outbox[id].Pending() ==>
      id in s.outbox && s.outbox[id].Pending() && s.outbox[id].cipher == s'.outbox[id].cipher
    ensures Calm(s, s')
  {
  }

  /** A leg that fires was live already. */
  lemma FireCalm(s: State, i: nat, relays: nat)
    ensures Calm(s, FireLeg(s, i, relays))
  {
    if i in s.queued && i < |s.sends| && relays > 0 {
      FiredCalm(s, FireLeg(s, i, relays), i);
    } else {
      FewerRowsCalm(s, FireLeg(s, i, relays));
    }
  }

  lemma FiredCalm(s: State, s': State, i: nat)
    requires i in s.queued && i < |s.sends| && s'.ratchet == s.ratchet && s'.disk == s.disk && s'.queued <= s.queued
    requires s'.sends == s.sends[i := s.sends[i].(onWire := true)]
    requires forall id :: id in s'.outbox && s'.outbox[id].Pending() ==>
      id in s.outbox && s.outbox[id].Pending() && s.outbox[id].cipher == s'.outbox[id].cipher
    ensures Calm(s, s')
  {
    assert Queued(s, s.sends[i].cipher);
    LiveFrom(s, s', s.sends[i].cipher);
  }

  /** After a restart exactly the durable ciphertexts are live. */
  lemma RestartLive(s: State, c: Cipher)
    ensures Live(Restart(s), c) <==> Durable(s, c)
  {
    var s' := Restart(s);
    assert OnWire(s', c) <==> OnWire(s, c);
    assert Waiting(s', c) <==> Waiting(s, c);
  }
}
