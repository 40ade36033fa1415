/** One-to-one traffic: every step on the wire, or waiting in a row that may still be sent, is already
    on disk, so no restart can bring a step back. */
module RatchetSafety {
  import opened Wire
  import opened Outbound
  import opened TokenSafety
  import opened RatchetEffects

  // ----- the invariant -----

  ghost predicate DiskBehind(s: State) { forall p :: At(s.disk, p) <= At(s.ratchet, p) }
  ghost predicate LiveOnDisk(s: State) { forall c :: Live(s, c) ==> c.step < At(s.disk, c.peer) }
  ghost predicate StepsUnique(s: State) {
    forall c, d :: Live(s, c) && Live(s, d) && c.peer == d.peer && c.step == d.step ==> c == d
  }
  ghost predicate StepInv(s: State) { DiskBehind(s) && LiveOnDisk(s) && StepsUnique(s) }

  lemma CalmKeeps(s: State, s': State)
    requires StepInv(s) && Calm(s, s')
    ensures StepInv(s')
  {
    forall c | Live(s', c) ensures c.step < At(s'.disk, c.peer) {
      assert Live(s, c) && At(s.disk, c.peer) <= At(s.ratchet, c.peer) <= At(s'.ratchet, c.peer);
    }
    forall p ensures At(s'.disk, p) <= At(s'.ratchet, p) { assert At(s.ratchet, p) <= At(s'.ratchet, p); }
  }

  /** A new ciphertext made at the current step is safe once that step is on disk. */
  lemma SavesKeeps(s: State, s': State, c: Cipher)
    requires StepInv(s) && Saves(s, s', c)
    ensures StepInv(s')
  {
    forall d | Live(s, d) ensures d.step < At(s'.disk, d.peer) && (d.peer == c.peer ==> d.step < c.step) {
      assert d.step < At(s.disk, d.peer) <= At(s.ratchet, d.peer) <= At(s'.ratchet, d.peer);
    }
  }

  // ----- operations -----

  lemma ShipKeeps(s: State, peer: Bytes, id: Bytes, body: Bytes, now: int, ttl: int, token: Token, env: Env)
    requires StepInv(s)
    ensures StepInv(SealAndShip(s, peer, id, body, now, ttl, token, env))
  {
    ShipEffect(s, peer, id, body, now, ttl, token, env);
    var s' := SealAndShip(s, peer, id, body, now, ttl, token, env);
    if env.persists { SavesKeeps(s, s', Sealed(s, peer, body)); } else { CalmKeeps(s, s'); }
  }

  lemma SameStepsKeep(s: State, s': State)
    requires StepInv(s) && SameSteps(s, s')
    ensures StepInv(s')
  {
    SameStepsCalm(s, s');
    CalmKeeps(s, s');
  }

  lemma TextKeeps(s: State, peer: Bytes, id: Bytes, body: Bytes, now: int, ttl: int, env: Env)
    requires StepInv(s)
    ensures StepInv(SendText(s, peer, id, body, now, ttl, env))
  {
    if CanMint(s, peer) {
      SameStepsKeep(s, Mint(s, peer));
      if env.encrypts {
        ShipKeeps(Mint(s, peer), peer, id, body, now, ttl, NextToken(s, peer), env);
      } else {
        SameStepsKeep(s, SendText(s, peer, id, body, now, ttl, env));
      }
    }
  }

  lemma EncryptKeeps(s: State, peer: Bytes)
    requires StepInv(s)
    ensures StepInv(Encrypt(s, peer))
  {
    EncryptCalm(s, peer);
    CalmKeeps(s, Encrypt(s, peer));
  }

  lemma {:induction false} ChunksKeep(s: State, peer: Bytes, chunks: seq<Chunk>, now: int, ttl: int)
    requires StepInv(s)
    ensures StepInv(ShipChunks(s, peer, chunks, now, ttl))
    decreases |chunks|
  {
    if chunks != [] {
      var (s', more) := ShipChunk(s, peer, chunks[0], now, ttl);
      if chunks[0].env.encrypts {
        if CanMint(s, peer) {
          SameStepsKeep(s, Mint(s, peer));
          ShipKeeps(Mint(s, peer), peer, chunks[0].id, chunks[0].body, now, ttl, NextToken(s, peer), chunks[0].env);
        } else {
          EncryptKeeps(s, peer);
        }
      }
      if more { ChunksKeep(s', peer, chunks[1..], now, ttl); }
    }
  }

  lemma FrameKeeps(s: State, peer: Bytes, body: Bytes, token: Option<Token>, relays: nat)
    requires StepInv(s)
    ensures StepInv(Emit(Persist(Encrypt(s, peer)), Sealed(s, peer, body), token, relays))
  {
    FrameEffect(s, peer, body, token, relays);
    SavesKeeps(s, Emit(Persist(Encrypt(s, peer)), Sealed(s, peer, body), token, relays), Sealed(s, peer, body));
  }

  lemma NoticeKeeps(s: State, peer: Bytes, body: Bytes, env: Env)
    requires StepInv(s)
    ensures StepInv(SendNotice(s, peer, body, env))
  {
    if CanMint(s, peer) {
      var minted, token := Mint(s, peer), NextToken(s, peer);
      SameStepsKeep(s, minted);
      EncryptKeeps(minted, peer);
      FrameKeeps(minted, peer, body, Some(token), env.relays);
      var sent := Emit(Persist(Encrypt(minted, peer)), Sealed(minted, peer, body), Some(token), env.relays);
      SameStepsKeep(minted, Rollback(minted, peer, token.index));
      SameStepsKeep(Encrypt(minted, peer), Rollback(Encrypt(minted, peer), peer, token.index));
      SameStepsKeep(sent, Rollback(sent, peer, token.index));
    }
  }

  lemma RefreshKeeps(s: State, peer: Bytes, body: Bytes, env: Env)
    requires StepInv(s)
    ensures StepInv(RequestRefresh(s, peer, body, env))
  {
    if CanMint(s, peer) {
      SameStepsKeep(s, Mint(s, peer));
      EncryptKeeps(Mint(s, peer), peer);
      FrameKeeps(Mint(s, peer), peer, body, Some(NextToken(s, peer)), env.relays);
    }
  }

  lemma SeedKeeps(s: State, peer: Bytes, body: Bytes, env: Env)
    requires StepInv(s)
    ensures StepInv(DeliverSeed(s, peer, body, env))
  {
    EncryptKeeps(s, peer);
    FrameKeeps(s, peer, body, None, env.relays);
  }

  lemma RetryKeeps(s: State, id: Bytes, relays: nat)
    requires StepInv(s)
    ensures StepInv(UserRetry(s, id, relays))
  {
    RetryCalm(s, id, relays);
    CalmKeeps(s, UserRetry(s, id, relays));
  }

  lemma RetryCalm(s: State, id: Bytes, relays: nat)
    ensures Calm(s, UserRetry(s, id, relays))
  {
    var s' := UserRetry(s, id, relays);
    if s' != s { ResendCalm(s, s', id); }
  }

  lemma WalkEntryCalm(s: State, id: Bytes, now: int, relays: nat)
    ensures Calm(s, WalkEntry(s, id, now, relays))
  {
    var s' := WalkEntry(s, id, now, relays);
    if s' != s { ResendCalm(s, s', id); }
  }

  lemma {:induction false} WalkKeeps(s: State, order: seq<(Bytes, nat)>, now: int)
    requires StepInv(s)
    ensures StepInv(Walk(s, order, now))
    decreases |order|
  {
    if order != [] {
      var front, last := order[..|order| - 1], order[|order| - 1];
      WalkKeeps(s, front, now);
      WalkEntryCalm(Walk(s, front, now), last.0, now, last.1);
      CalmKeeps(Walk(s, front, now), Walk(s, order, now));
    }
  }

  lemma RetryWalkKeeps(s: State, order: seq<(Bytes, nat)>, now: int, connected: bool)
    requires StepInv(s)
    ensures StepInv(RetryWalk(s, order, now, connected))
  {
    ExpireCalm(s, now);
    CalmKeeps(s, Expire(s, now));
    WalkKeeps(Expire(s, now), order, now);
    CollectCalm(Walked(s, order, now, connected), now);
    CalmKeeps(Walked(s, order, now, connected), RetryWalk(s, order, now, connected));
  }

  lemma ExpireCalm(s: State, now: int)
    ensures Calm(s, Expire(s, now))
  {
    FewerRowsCalm(s, Expire(s, now));
  }

  lemma CollectCalm(s: State, now: int)
    ensures Calm(s, Collect(s, now))
  {
    FewerRowsCalm(s, Collect(s, now));
  }

  lemma AckCalm(s: State, id: Bytes, sender: Bytes, now: int)
    ensures Calm(s, AckArrives(s, id, sender, now))
  {
    FewerRowsCalm(s, AckArrives(s, id, sender, now));
  }

  lemma RestartKeeps(s: State)
    requires StepInv(s)
    ensures StepInv(Restart(s))
  {
    forall c | Live(Restart(s), c) ensures Live(s, c) { RestartLive(s, c); }
  }

  /** Everything but the group fan-out, which does not look at the result of the session write. */
  predicate Direct(op: Op) { !op.GroupControl? && !op.GroupLeg? && !op.Fire? }

  lemma DirectStepKeeps(s: State, op: Op)
    requires StepInv(s) && Direct(op)
    ensures StepInv(Step(s, op))
  {
    match op {
      case Text(peer, id, body, now, ttl, env) => TextKeeps(s, peer, id, body, now, ttl, env);
      case Attachment(peer, chunks, now, ttl) => ChunksKeep(s, peer, chunks, now, ttl);
      case Notice(peer, body, env) => NoticeKeeps(s, peer, body, env);
      case Refresh(peer, body, env) => RefreshKeeps(s, peer, body, env);
      case Seed(peer, body, env) => SeedKeeps(s, peer, body, env);
      case Retry(id, relays) => RetryKeeps(s, id, relays);
      case RunWalk(order, now, connected) => RetryWalkKeeps(s, order, now, connected);
      case Relaunch => RestartKeeps(s);
      case _ =>
        QuietStepCalm(s, op);
        CalmKeeps(s, Step(s, op));
    }
  }

  /** Operations that seal and send nothing. */
  lemma QuietStepCalm(s: State, op: Op)
    requires op.Ack? || op.Install? || op.Drop? || op.SaveSession?
    ensures Calm(s, Step(s, op))
  {
    match op {
      case Ack(id, sender, now) => AckCalm(s, id, sender, now);
      case Install(peer, id, length) => SameStepsCalm(s, InstallChain(s, peer, id, length));
      case Drop(peer) => SameStepsCalm(s, DropChain(s, peer));
      case SaveSession(persists) => SaveCalm(s, persists);
    }
  }

  // ----- whole runs -----

  lemma {:induction false} DirectRunKeeps(states: seq<State>, ops: seq<Op>, n: nat)
    requires IsRun(states, ops) && states[0] == START && n <= |ops|
    requires forall i :: 0 <= i < n ==> Direct(ops[i])
    ensures StepInv(states[n])
    decreases n
  {
    if n > 0 {
      DirectRunKeeps(states, ops, n - 1);
      DirectStepKeeps(states[n - 1], ops[n - 1]);
    }
  }

  /** In every run of one-to-one operations, with any failures and any restarts between them, two
      frames for one peer at one step are the same ciphertext, and each frame's step is on disk. */
  lemma StepsAreNeverShared(states: seq<State>, ops: seq<Op>, n: nat)
    requires IsRun(states, ops) && states[0] == START && n <= |ops|
    requires forall i :: 0 <= i < n ==> Direct(ops[i])
    ensures forall c, d :: OnWire(states[n], c) && OnWire(states[n], d) && c.peer == d.peer && c.step == d.step ==>
      c == d
    ensures forall c :: OnWire(states[n], c) ==> c.step < At(states[n].disk, c.peer)
  {
    DirectRunKeeps(states, ops, n);
    assert forall c :: OnWire(states[n], c) ==> Live(states[n], c);
  }
}
